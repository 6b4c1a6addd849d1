# memory-store: verified models

This project models the algorithmic cores of the `memory-store` server in Dafny and proves what they promise.
`dafny verify dfyconfig.toml` checks all of it.

| module | what it models |
|---|---|
| `Basics`, `Utf16` | what several modules share |
| `Lines`, `HistoryWindow` | byte sequences cut at LF, and the backward and forward record readers of the Codex history window |
| `HistoryOrdinals`, `OrdinalValidator` | the ordinal checks of the window and of whole segments |
| `TailScan` | the backward tail scan and the forward line scan over Claude Code session files |
| `Rounds`, `RoundsShape` | the conversation-rounds builder, and what every build looks like |
| `RoundsReplay`, `IncrementalRounds` | replaying the builder from a checkpoint instead of rebuilding |
| `RoundsContent`, `RoundsCalls` | what the rounds of every build hold, told by walks over the lines alone |
| `NestedSteps` | which lines put a step where the rebase of a replay does not reach |
| `ByteFields`, `ZstdFrames` | Zstandard frame inspection against a writer that follows RFC 8878, sections 3.1.1 and 3.1.2 |
| `FrameReading`, `FrameLayouts` | the windowed reader under the inspection and the layout cache before it |
| `Checksum64`, `ChecksumVectors` | streaming XXH64 on 64-bit words, and known answers |
| `PrefixDigest` | prefix hashing with its streaming identity check and the digest cache |
| `SummaryJournal`, `SummaryText` | the write-ahead journal of the summary write-back, and the text functions it relies on |
| `PatchedFields` | what a patch does to the other fields of the file |
| `CommandLine` | both Windows command-line quoters against the documented argument rules, and the length check |
| `StableJson`, `StableMeaning` | normalization and stable printing of resume payloads against a reader, and what order, limits and normal form mean |
| `TaskQueue`, `Suspension` | the multi-lane background queue, and suspending and waking one task |
| `SourceWork`, `PrefixFlights` | the two protocols by which callers share and cancel work |
| `MemoryWatermark`, `AdaptiveGate` | the memory watermark controller and the concurrency gate |

Code that changes state is a class whose methods are proved against a specification function or state predicate; what the
code promises is proved about those. Loops are loops with invariants, and pure code is functions. Files are byte sequences,
JSON events are datatypes, hashes other than XXH64 are arbitrary functions, and interleavings are sequences of method calls
in any order.

## Where the code does not do what one would expect

- A null ordinal is filled in by `??`: the forward walk accepts a segment that the backward walk rejects
  (`HistoryOrdinals.DirectionsAgree` gives the exact condition), and on an empty segment only the forward walk checks the end.
- The rebase moves the steps of a round's collections, but not the steps of an assistant's attachments inside
  `semanticEvents`, nor the step printed into the placeholder of sealed thinking. `IncrementalRounds.ReplayIsExact` gives the
  exact condition on the replayed lines, and `AttachmentStepsAreNotRebased` an example.
- The forward reader takes one byte of an empty segment, and yields it as a record when the file was empty at first and has
  grown since; the backward reader yields nothing (`HistoryWindow.ReadBothWays` gives the exact condition).
- An own field named `__proto__` is lost in normalization, and an array that holds a single gap prints like an empty one
  (`StableJson.LostInPrint`).
- A summary that begins with empty lines loses them when the file is read again: exactly the summaries whose first line is
  not empty come back (`SummaryText.SummaryIsReadBack`).
- A patch drops an old provenance or summary line by line. Where it stands behind an opened, still empty block of another
  field, the lines behind it belonged to that block, and are lost (`PatchedFields.InvisibleIffNothingHangs` gives the exact
  condition, `TextIsLost` an example). A file with two marks at its start keeps none of its fields.
- Pressure raises the memory limit when it lies below the configured minimum (`MemoryWatermark.PressureRaisesIffBelowMinimum`),
  as it does after a clear (`PressureRaisesAfterClear` is an example).
- A suspension signal that arrives after its background task has settled leaves that suspended without an executor, and
  nothing but a recovery lets it run again (`Suspension.LateSignal`); this is the only way out of a terminal status
  (`Suspension.BackgroundTask.Step`). Cancelling it then leaves its timer armed, which changes nothing when it fires
  (`Suspension.StaleTimer`).
- A program name with a quote, or one that needs quotes and ends in a backslash, is not read back from the command line
  (`CommandLine.LineIsReadBack` gives the exact condition, `NamesThatAreLost` two examples).

## Model

| member | source | states |
|---|---|---|
| `Lines.SpansAreTheLines` | mcps/memory-store/src/codex-history-window.ts:116-149 | The reference cut at LF: the list holds exactly the ranges that are lines (non-empty at the end of the file), each once, in file order |
| `HistoryWindow.RecordsAreTheNonEmptyLines` | mcps/memory-store/src/codex-history-window.ts:151-185 | A record is exactly a non-empty line, with its bytes, start, end behind its LF, and whether it had one |
| `HistoryWindow.ScanBlock` | mcps/memory-store/src/codex-history-window.ts:131-144 | One block of the backward reader, whatever line its edges cut through, keeps the pending pieces equal to the bytes behind the cursor, or reports a record over the limit that the file really has |
| `HistoryWindow.ReverseRecords` | mcps/memory-store/src/codex-history-window.ts:116-149 | For every block size, succeeds iff the file is long enough and read and record limits hold, and then yields the records of the file in reverse; what it yielded before an error is a prefix of that, and the error names a limit that is exceeded |
| `HistoryWindow.ScanAhead` | mcps/memory-store/src/codex-history-window.ts:168-179 | One chunk of the forward reader: the kept pieces are the line so far, or a record over the limit exists |
| `HistoryWindow.ForwardRecords` | mcps/memory-store/src/codex-history-window.ts:151-185 | For every chunking, succeeds iff the limits, the archive check and the adopted end hold, and then yields exactly the same records in file order; prefix before an error, which names what is exceeded |
| `HistoryWindow.ReadBothWays` | mcps/memory-store/src/codex-history-window.ts:116-185 | Over the same segment, for every block size and chunking: inside the file both readers fail together, and when both succeed the one yields the other's records in reverse, unless the segment was empty and the file has since begun with a record: exactly then |
| `HistoryOrdinals.CheckOrdinals` | mcps/memory-store/src/codex-history-window.ts:305-310 | The checking loop accepts exactly the backward or forward runs of its specification |
| `HistoryOrdinals.ForwardMeaning` | mcps/memory-store/src/codex-history-window.ts:306-310 | Without null ordinals the forward walk accepts iff ordinals are present, in range, strictly increasing, and end where the segment ends |
| `HistoryOrdinals.BackwardMeaning` | mcps/memory-store/src/codex-history-window.ts:306-310 | The same for the backward walk, with strictly decreasing ordinals |
| `HistoryOrdinals.DirectionsAgree` | mcps/memory-store/src/codex-history-window.ts:306-338 | On every non-empty explicit segment the backward walk accepts iff the forward one does and the segment is one record or has no null ordinal: exactly where the two directions agree |
| `HistoryOrdinals.NullOrdinalSplitsTheDirections` | mcps/memory-store/src/codex-history-window.ts:307-308 | A concrete segment that the forward walk accepts and the backward walk rejects |
| `HistoryOrdinals.EmptySegment` | mcps/memory-store/src/codex-history-window.ts:309-338 | On an empty segment the backward walk accepts any adopted end, the forward walk only the start ordinal |
| `OrdinalValidator.Validator.Add` | mcps/memory-store/src/codex-history-integrity.ts:227-252 | A record is accepted iff the records with it are acceptable: all explicit from the start ordinal and strictly increasing, or all counted without overflow, in an allowed mode |
| `OrdinalValidator.Validator.Finish` | mcps/memory-store/src/codex-history-integrity.ts:254-258 | The end matches iff it is one behind the last ordinal |
| `OrdinalValidator.AcceptedSegments` | mcps/memory-store/src/codex-history-integrity.ts:227-252 | What is acceptable, record by record: all ordinals there, growing from the start on, unless legacy records are asked for; or none there, within range, unless explicit ones are asked for or precede |
| `OrdinalValidator.Validate` | mcps/memory-store/src/codex-history-integrity.ts:214-259 | A whole segment is accepted iff it is acceptable in one of the two modes and ends at the given boundary |
| `TailScan.FromLastUserIsTheTail` | mcps/memory-store/src/claude-code-client.ts:3402-3425 | The reference suffix: starts at the last user event, or is everything when there is none |
| `TailScan.EventsAreTheLines` | mcps/memory-store/src/claude-code-client.ts:3402-3425 | The events of a file are exactly its lines that are short enough and say something, with their offsets, role and text |
| `TailScan.TailIsOfLines` | mcps/memory-store/src/claude-code-client.ts:3402-3490 | The reference suffix holds exactly those of them that no user line follows, and its last end is the last end of any |
| `TailScan.EventsAscend` | mcps/memory-store/src/claude-code-client.ts:3482 | Offsets of the events grow along the file, so sorting the found events by start only turns them around |
| `TailScan.ScanBack` | mcps/memory-store/src/claude-code-client.ts:3446-3459 | All complete lines of one chunk, from its end: either everything behind the new line end is settled or the last user event was found |
| `TailScan.ScanTailReverse` | mcps/memory-store/src/claude-code-client.ts:3387-3490 | For every file and chunk size: an event is found iff it is the role and text of a line of the file that is short enough, with its start and end, and no user line follows it; the watermark is the end of the last line of the file that says something, or 0; a short file is reported |
| `TailScan.WatermarkIsTheLastEvent` | mcps/memory-store/src/claude-code-client.ts:3482-3488 | The watermark is the end of the last meaningful event of the whole file |
| `TailScan.VisitsAreTheSpans` | mcps/memory-store/src/claude-code-client.ts:3303-3337 | The forward scan's visit k is line k of the file with its number: its bytes when it is at most the maximum long, else its number only; no line is visited twice or left out |
| `TailScan.ConsumeChunk` | mcps/memory-store/src/claude-code-client.ts:3303-3337 | One chunk keeps the pending line, or the fact that it is being discarded, exactly |
| `TailScan.ScanForward` | mcps/memory-store/src/claude-code-client.ts:3340-3359 | For every chunking: exactly the reference visits; a file shorter than expected is reported |
| `TailScan.BothDirectionsConsiderTheSameLines` | mcps/memory-store/src/claude-code-client.ts:3303-3490 | What the forward scan's considered lines say, in order, are the events of the backward reference: both directions skip the same lines |
| `Rounds.Builder.Handle` | mcps/memory-store/src/claude-code-client.ts:1769-1912 | One parsed line changes every variable of the builder as its specification says (tool results, compaction summaries, thinking, tool uses, checkpoints); what that makes of whole files is stated by `RoundsContent` and `RoundsCalls` on the lines alone |
| `Rounds.Builder.Finish` | mcps/memory-store/src/claude-code-client.ts:1914-1919 | Closing pushes the open round and its replay checkpoint |
| `Rounds.BuildRounds` | mcps/memory-store/src/claude-code-client.ts:1686-1921 | A build is the fold of its lines, closed |
| `RoundsContent.LineTells` | mcps/memory-store/src/claude-code-client.ts:1769-1912 | One line adds to all rounds exactly what a walk over the lines adds: heads, responses, views, assistant attachments, checkpoints |
| `RoundsContent.BuildTellsItsLines` | mcps/memory-store/src/claude-code-client.ts:1686-1921 | Every build holds, over all rounds in order, exactly the round heads (message, attachments, annotations, compaction), responses (text, or else tool names, with thinking and calls), file views, assistant attachments and inner checkpoints that a walk over the lines alone tells, each with its step |
| `RoundsContent.BuildSpeaksItsLines` | mcps/memory-store/src/claude-code-client.ts:1827-1866 | Every build: the responses say in order the texts of the assistant lines, and the tool names of those that only call tools; they think all thinking up to the last line that answers; the rounds open with the texts of the user lines; the attachments are those of the assistant lines |
| `RoundsCalls.BuildCallsItsLines` | mcps/memory-store/src/claude-code-client.ts:1748-1849 | Every build: the tool calls of all rounds in order are those that a flat list would hold, to which uses are appended and into which results are written at the place of the last use of their id |
| `RoundsCalls.BuildNotesItsLines` | mcps/memory-store/src/claude-code-client.ts:1748-1849 | Every build: names and arguments of all calls, in order, are those of the lines' tool uses, with one `tool_result` for every result that names no earlier use |
| `RoundsCalls.UseIsAnswered` | mcps/memory-store/src/claude-code-client.ts:1748-1755 | A tool use whose id is not used again stands behind all calls before it, with its step, name and arguments, and holds the last result in the file that names it, or none |
| `RoundsShape.NextRoundKeeps` | mcps/memory-store/src/claude-code-client.ts:1786-1808 | A user line closes the open round at its own step and opens the next one there: rounds stay numbered and without gap |
| `RoundsShape.UseKeeps` | mcps/memory-store/src/claude-code-client.ts:1839-1849 | A tool use is recorded with its round and its position, where its call really is |
| `RoundsShape.ResultReachesItsUse` | mcps/memory-store/src/claude-code-client.ts:1748-1755 | A result that names a recorded use is written into that call, in whichever round it is, and every other call and round stays as it was |
| `RoundsShape.LineKeeps` | mcps/memory-store/src/claude-code-client.ts:1769-1912 | Every line keeps the shape of the build |
| `RoundsShape.BuildsAreChained` | mcps/memory-store/src/claude-code-client.ts:1686-1921 | Every build: rounds numbered from one, each ending where the next begins, the last at the last line, every item within the steps of its round, every recorded tool use in its place |
| `RoundsReplay.SimToolResult` | mcps/memory-store/src/claude-code-client.ts:1748-1767 | A tool result lands in corresponding rounds of the full build and the replay, unless it names a use of an earlier round |
| `RoundsReplay.SimUser` | mcps/memory-store/src/claude-code-client.ts:1780-1825 | A user line keeps full build and replay in step |
| `RoundsReplay.SimAssistant` | mcps/memory-store/src/claude-code-client.ts:1827-1866 | An assistant line keeps full build and replay in step, pending thinking included |
| `RoundsReplay.SimLine` | mcps/memory-store/src/claude-code-client.ts:1769-1912 | Every line keeps the simulation: the full build is the kept part followed by the replay moved by its round and step offsets |
| `RoundsReplay.SimRun` | mcps/memory-store/src/claude-code-client.ts:1769-1912 | So does every run of lines in which no result names an earlier tool use |
| `IncrementalRounds.LineEffect` | mcps/memory-store/src/claude-code-client.ts:1769-1912 | What a line does to the open round, the replay data and the pending boundary |
| `IncrementalRounds.ReplayLocated` | mcps/memory-store/src/claude-code-client.ts:1811-1821 | The replay data of the open round always name a real line: the one that opened the round or the compaction boundary before it |
| `IncrementalRounds.ReplayPointLocated` | mcps/memory-store/src/claude-code-client.ts:1708-1716 | The stored checkpoint locates that line by byte, number and step |
| `IncrementalRounds.FinishedSim` | mcps/memory-store/src/claude-code-client.ts:1914-1919 | From a replayable point the finished full build is the rounds and checkpoints that were final there, then the replayed ones, moved |
| `IncrementalRounds.ReadRoundTail` | mcps/memory-store/src/claude-code-client.ts:2095-2144 | The tail reader builds from the checkpoint with a fresh builder and rebases in place |
| `IncrementalRounds.RebaseIsExact` | mcps/memory-store/src/claude-code-client.ts:2006-2018 | The rebase of a round is the full move iff nothing is to be moved or the round has no step below its step collections |
| `NestedSteps.LineNests` | mcps/memory-store/src/claude-code-client.ts:1827-1866 | One line leaves the rounds without nested steps iff they had none and the line carries none; sealed thinking waits behind it exactly as the walk over the lines says |
| `NestedSteps.BuildsAreCleanIffNoLineCarries` | mcps/memory-store/src/claude-code-client.ts:1827-1866 | A build has no step below its step collections iff a walk over the lines alone, with one flag for waiting sealed thinking, finds no line that carries one |
| `IncrementalRounds.FullIsKeptPlusReplayed` | mcps/memory-store/src/claude-code-client.ts:2095-2144 | The rebuild of the extended file is the old rounds before the replaced one, then the replayed rounds, moved; same checkpoint |
| `IncrementalRounds.ReplayIsExact` | mcps/memory-store/src/claude-code-client.ts:2006-2144 | For every line list and append that can be replayed: the stored checkpoint is that of a rebuild, and the rounds are those of a rebuild iff the replay starts at the first line or no replayed line is an assistant line that does more than think with attachments, or with sealed thinking of its own or waiting from lines that only think |
| `IncrementalRounds.FirstReadIsFull` | mcps/memory-store/src/claude-code-client.ts:2095-2144 | Before the first round, reading the tail is a full build |
| `IncrementalRounds.OneAppend` | mcps/memory-store/src/claude-code-client.ts:2095-2144 | One append that can be replayed and whose replayed lines carry no nested step ends in the state of a rebuild |
| `IncrementalRounds.FollowingIsRebuilding` | mcps/memory-store/src/claude-code-client.ts:2095-2144 | Over every sequence of such appends, following the file ends where one full build of the final file ends |
| `IncrementalRounds.AttachmentStepsAreNotRebased` | mcps/memory-store/src/claude-code-client.ts:1861-1864 | A concrete append after which the incremental rounds differ: the step of an assistant's attachment is not rebased |
| `ZstdFrames.FrameComplete` | mcps/memory-store/src/codex-history-archive.ts:309-361 | Writing a well-formed frame as in RFC 8878 sections 3.1.1 and 3.1.2, within this reader's limits, and inspecting it gives the frame back and stops behind it |
| `ZstdFrames.FrameSound` | mcps/memory-store/src/codex-history-archive.ts:309-361 | Whatever the inspection accepts is the writing of the frame it returns |
| `ZstdFrames.InspectionInvertsWriting` | mcps/memory-store/src/codex-history-archive.ts:305-363 | For every list of well-formed frames within the frame limit: inspecting the written bytes gives back boundaries, content sizes and checksums |
| `ZstdFrames.AcceptedFilesAreWritten` | mcps/memory-store/src/codex-history-archive.ts:305-363 | A file is accepted iff it is the writing of a non-empty list of well-formed frames within the limit |
| `ZstdFrames.AcceptedRecordsTile` | mcps/memory-store/src/codex-history-archive.ts:309-362 | On every accepted file the frames tile it from 0 to its size without gap |
| `ZstdFrames.RecordTells` | mcps/memory-store/src/codex-history-archive.ts:309-361 | What an accepted frame is reported as can be read off the bytes of the file at its place |
| `ZstdFrames.LayoutTells` | mcps/memory-store/src/codex-history-archive.ts:309-362 | For every list of written frames record i covers exactly the bytes of frame i and has its checksum, content size and kind |
| `ZstdFrames.OpeningFields` | mcps/memory-store/src/codex-history-archive.ts:322-346 | On bytes: a header is refused iff a reserved flag is set, it is cut off, its dictionary is not zero, or window or content size are over their limits; else these are its fields |
| `ZstdFrames.WindowIsEighths` | mcps/memory-store/src/codex-history-archive.ts:325-329 | A window descriptor means 8 to 15 eighths of a power of two from 1 KiB on |
| `ZstdFrames.BlocksStep` | mcps/memory-store/src/codex-history-archive.ts:347-357 | On bytes: a block is refused iff its kind is 3, its size is over window or 128 KiB, or its body is cut off; else the list ends with it or goes on behind it |
| `ZstdFrames.InspectBlocks` | mcps/memory-store/src/codex-history-archive.ts:347-357 | The block loop, reading through the windowed reader, ends and accepts exactly the specified blocks |
| `ZstdFrames.InspectHeader` | mcps/memory-store/src/codex-history-archive.ts:322-346 | The steps over flags, window descriptor, dictionary identifier and content size accept exactly the headers that are well-formed and within the limits, with their window, content size, checksum flag and end |
| `ZstdFrames.InspectFrame` | mcps/memory-store/src/codex-history-archive.ts:311-360 | One frame, field by field through the windowed reader, is the specified frame, and its record is true of the bytes: skippable iff its magic is, a checksum iff bit 2 of the flags is set and then the number in its last four bytes, a content size iff the header has the field and then its value, counted from 256 when it has two bytes |
| `ZstdFrames.InspectFrames` | mcps/memory-store/src/codex-history-archive.ts:305-363 | The whole inspection, over a fresh windowed reader, terminates on every file and gives the specified list or none; every record is true of the file's bytes |
| `FrameReading.FrameReader.Fill` | mcps/memory-store/src/codex-history-archive.ts:247-251 | A refill reads the file's own bytes at the wanted position, as far as file and buffer go |
| `FrameReading.FrameReader.Read` | mcps/memory-store/src/codex-history-archive.ts:241-254 | Every successful read is the file's own bytes at the requested position; a read that fits the buffer succeeds iff it lies within the size and within the file, also a shortened one |
| `FrameReading.FrameReader.ReadNumber` | mcps/memory-store/src/codex-history-archive.ts:241-318 | A field is the little-endian number that stands at its position, or missing when it does not lie within size and file |
| `FrameLayouts.EvictionIsMinimal` | mcps/memory-store/src/codex-history-archive.ts:289-293 | Eviction stops as soon as the new layout fits |
| `FrameLayouts.LayoutCache.Remember` | mcps/memory-store/src/codex-history-archive.ts:289-296 | Storing keeps at most 64 layouts and 4096 records, with the counter equal to the sum of the lengths |
| `FrameLayouts.LayoutCache.Frames` | mcps/memory-store/src/codex-history-archive.ts:262-303 | Hit, miss and overflow all yield what a fresh inspection of the file yields; the cache moves, stores or stays as specified |
| `Checksum64.StripesSplit` | mcps/memory-store/src/codex-history-archive.ts:27-29 | Stripes of a concatenation are the stripes of its parts when the first is whole |
| `Checksum64.Checksum.Update` | mcps/memory-store/src/codex-history-archive.ts:23-31 | After any update the state is that of the concatenated input: total length, lanes of its whole stripes, tail of length modulo 32 |
| `Checksum64.Checksum.FinishTail` | mcps/memory-store/src/codex-history-archive.ts:39-45 | The remaining 8-, 4- and 1-byte steps are the specified tail |
| `Checksum64.Checksum.Digest` | mcps/memory-store/src/codex-history-archive.ts:33-51 | The digest is the low 32 bits of seed-0 XXH64 of everything fed in |
| `Checksum64.ChecksumOf` | mcps/memory-store/src/codex-history-archive.ts:18-52 | Independent of chunking: for every split the digest is that of the concatenation |
| `ChecksumVectors.NoInput` | mcps/memory-store/src/codex-history-archive.ts:18-52 | XXH64 of no input is 0xEF46DB3751D8E999 |
| `ChecksumVectors.OneByte` | mcps/memory-store/src/codex-history-archive.ts:18-52 | XXH64 of one byte is 0xD24EC4F1A98C6E5B |
| `ChecksumVectors.EightBytes` | mcps/memory-store/src/codex-history-archive.ts:18-52 | XXH64 of eight bytes is 0x3AD351775B4634B7 |
| `ChecksumVectors.Sentence` | mcps/memory-store/src/codex-history-archive.ts:18-52 | XXH64 of a sentence of 39 bytes, with a stripe and four- and one-byte steps, is 0xFBCEA83C8A378BF1 |
| `PrefixDigest.HeaderGrows` | mcps/memory-store/src/codex-history-integrity.ts:35-39 | The header hash takes in exactly the bytes before the first LF, however the input is cut |
| `PrefixDigest.Verifier.Update` | mcps/memory-store/src/codex-history-integrity.ts:34-45 | After non-empty pieces the verifier's state is a function of the bytes seen |
| `PrefixDigest.Verifier.Finish` | mcps/memory-store/src/codex-history-integrity.ts:47-55 | The verdict is the check of the whole prefix, with the same error |
| `PrefixDigest.CheckComparesBytes` | mcps/memory-store/src/codex-history-integrity.ts:47-55 | Under a hash without collisions the check of an identity taken from some bytes compares length, first line and everything from the anchor on, and then asks for a line end unless the identity does without |
| `PrefixDigest.DeservedComparesBytes` | mcps/memory-store/src/codex-history-integrity.ts:132-163 | So does the whole operation, before it gives the digest of the prefix |
| `PrefixDigest.Collector.Update` | mcps/memory-store/src/codex-history-integrity.ts:110-119 | The collector's tail is always the last 8192 bytes seen |
| `PrefixDigest.Collector.Finish` | mcps/memory-store/src/codex-history-integrity.ts:120-122 | The digest is truthful: its anchor hashes the prefix from the anchor start to the end |
| `PrefixDigest.CachedCheckIsFullCheck` | mcps/memory-store/src/codex-history-integrity.ts:88-101 | A truthful digest that can answer a check accepts or throws exactly as the full check |
| `PrefixDigest.DigestCache.Remember` | mcps/memory-store/src/codex-history-integrity.ts:126-130 | The stored digest becomes the newest, at most 256 stay, keys stay distinct |
| `PrefixDigest.DigestCache.Cached` | mcps/memory-store/src/codex-history-integrity.ts:88-101 | A hit or error is what the file deserves; neither iff no digest of the same file can answer; a hit becomes the newest |
| `PrefixDigest.DigestCache.HashPrefix` | mcps/memory-store/src/codex-history-integrity.ts:132-163 | On a file that stays the same, with or without the cache, for any split into non-empty reads: the same digest or error as streaming the prefix through the full check; only such a file is remembered |
| `CommandLine.RunnerQuote` | mcps/memory-store/native/windows-model-runner.cs:148-167 | The C# quoter writes the specified quoted form |
| `CommandLine.ScriptQuote` | mcps/memory-store/src/agy-client.ts:200-221 | The TypeScript quoter writes the same form under its own idea of white space |
| `CommandLine.RunnerLine` | mcps/memory-store/native/windows-model-runner.cs:272-273 | The command line is the quoted name and arguments joined by blanks |
| `CommandLine.EscapedIsRead` | mcps/memory-store/native/windows-model-runner.cs:152-165 | Inside quotes the documented reader gives back what was escaped and stops behind the closing quote |
| `CommandLine.QuotedIsRead` | mcps/memory-store/native/windows-model-runner.cs:148-167 | Every NUL-free argument is read back from its quoted form |
| `CommandLine.EscapedName` | mcps/memory-store/native/windows-model-runner.cs:152-166 | A quoted program name without quotes is read literally with its trailing backslashes doubled |
| `CommandLine.LineIsReadBack` | mcps/memory-store/native/windows-model-runner.cs:148-273 | For every name and argument list: the line is read back exactly iff nothing holds a NUL and the name holds no quote and no trailing backslash that had to be doubled |
| `CommandLine.NamesThatAreLost` | mcps/memory-store/native/windows-model-runner.cs:148-273 | A name of a blank and a backslash comes back with two backslashes, and a quote comes back as a backslash |
| `CommandLine.RunnerLineIsReadBack` | mcps/memory-store/native/windows-model-runner.cs:272-273 | The same condition for the lines of both quoters |
| `CommandLine.QuotedOnlyWhenNeeded` | mcps/memory-store/native/windows-model-runner.cs:148-151 | An argument stays as it is iff it is not empty and holds none of the five characters that the runner quotes, or for the script no quote and no white space |
| `CommandLine.MeasureIsEnough` | mcps/memory-store/src/agy-client.ts:223-228 | The measured length is never below the runner's line plus one, and equal to it iff no value holds white space that only the script quotes |
| `StableJson.Normalizer.NormalizeValue` | mcps/memory-store/src/background-recovery.ts:89-124 | With the counter shared by the traversal: accepted iff the payload is JSON data within depth and node limits, and then the result is its normal form and the counter grew by its nodes |
| `StableJson.Normalizer.NormalizeItems` | mcps/memory-store/src/background-recovery.ts:106-112 | The same for the items of a list: undefined reads as null, a gap stays |
| `StableJson.Normalizer.NormalizeFields` | mcps/memory-store/src/background-recovery.ts:117-123 | The same for the fields of an object in sorted order |
| `StableJson.CharsBack` | mcps/memory-store/src/background-recovery.ts:128 | A JSON string with its escapes, lone surrogates included, is read back |
| `StableJson.ReadBack` | mcps/memory-store/src/background-recovery.ts:126-133 | The printed form can be read back whatever follows it: it is uniquely decodable, up to a list of a single gap |
| `StableJson.TidyPrintsTheSame` | mcps/memory-store/src/background-recovery.ts:130 | A list of a single gap prints like an empty list |
| `StableJson.TextsAreEqualIffMeaningsAre` | mcps/memory-store/src/background-recovery.ts:89-133 | Two payloads have the same stable text iff they mean the same tree |
| `StableJson.TextsDecideEquality` | mcps/memory-store/src/background-recovery.ts:89-133 | Without lone gaps: iff they normalize to the same tree (key order, undefined and `__proto__` fields aside) |
| `StableJson.LostInPrint` | mcps/memory-store/src/background-recovery.ts:107-130 | Concrete payloads that differ and print alike: a `__proto__` field, and a gap alone in a list |
| `StableJson.StableText` | mcps/memory-store/src/background-recovery.ts:135-146 | The whole operation succeeds iff depth, node and UTF-8 byte limits hold, with the stable text of the normal form |
| `StableMeaning.BelowIsFirstDifference` | mcps/memory-store/src/background-recovery.ts:117-131 | Keys are ordered by their first different code unit, a proper prefix first |
| `StableMeaning.ObjectPrintsInOrder` | mcps/memory-store/src/background-recovery.ts:131-132 | An object prints its fields along the one ascending list of its keys |
| `StableMeaning.NormalKeepsPlainData` | mcps/memory-store/src/background-recovery.ts:89-124 | Data without undefined values and `__proto__` fields is kept as it is, value for value and key for key |
| `StableMeaning.NothingForeignPasses` | mcps/memory-store/src/background-recovery.ts:99-116 | Nothing foreign and no number that is not finite passes, however deep it is hidden |
| `StableMeaning.EverythingElsePasses` | mcps/memory-store/src/background-recovery.ts:99-116 | Data that holds no such value, and no undefined value or gap outside a list, passes |
| `StableMeaning.WithinLooksAtEveryLevel` | mcps/memory-store/src/background-recovery.ts:96-97 | The depth limit holds iff no visited value lies below it |
| `StableMeaning.ExampleCount` | mcps/memory-store/src/background-recovery.ts:95-96 | A concrete payload that shows what counts as a node |
| `StableMeaning.EscapesAreShortest` | mcps/memory-store/src/background-recovery.ts:128 | Every code unit is printed as itself, as a two-character escape or as four hex digits, exactly where JSON printing asks for it, and is read back |
| `StableMeaning.ExampleText` | mcps/memory-store/src/background-recovery.ts:126-133 | One payload with its stable text in full |
| `MemoryWatermark.ObserveIsSafe` | mcps/memory-store/src/agy-memory-watermark.ts:148-241 | An observation keeps limit and time in order; a frozen controller stays frozen at zero and grants nothing |
| `MemoryWatermark.ClearIsSafe` | mcps/memory-store/src/agy-memory-watermark.ts:243-286 | Only a clear that names the evidence of the freeze decides, and it grants nothing yet |
| `MemoryWatermark.StepIsSafe` | mcps/memory-store/src/agy-memory-watermark.ts:148-325 | The two together, for every decided step |
| `MemoryWatermark.GrantsExactly` | mcps/memory-store/src/agy-memory-watermark.ts:372-389 | Every decided step grants iff the controller is not frozen and the active slots are below the machine's, the current and the controller's limit |
| `MemoryWatermark.DoubtFreezes` | mcps/memory-store/src/agy-memory-watermark.ts:148-180 | An observation freezes iff clock or sample raise a doubt, and names the first one |
| `MemoryWatermark.FreezeRecords` | mcps/memory-store/src/agy-memory-watermark.ts:288-325 | A freeze records failure, evidence and time; the time counts as sampled and as pressed unless it runs backwards; counters and limit are zero |
| `MemoryWatermark.ReasonsTell` | mcps/memory-store/src/agy-memory-watermark.ts:182-241 | The reason of any other observation names the band of its ratio; calm is a recovery iff it raises the limit, by the step or up to the maximum |
| `MemoryWatermark.ExtremesAreRecognised` | mcps/memory-store/src/agy-memory-watermark.ts:148-241 | Under every accepted configuration full memory is pressure and empty memory is calm |
| `MemoryWatermark.EvidenceTells` | mcps/memory-store/src/agy-memory-watermark.ts:296-352 | Under a hash without collisions equal evidence means equal reason, owner, sample, time and limits |
| `MemoryWatermark.RunsAreSafe` | mcps/memory-store/src/agy-memory-watermark.ts:148-325 | Over every run from an initial state: limit in 0..physicalMax, sample times never back, frozen at limit zero until a clear with the matching evidence |
| `MemoryWatermark.ObservedIsAdjusted` | mcps/memory-store/src/agy-memory-watermark.ts:169-241 | A valid sample at a valid time adjusts the memory as the calm and pressure results assume |
| `MemoryWatermark.CalmRecovers` | mcps/memory-store/src/agy-memory-watermark.ts:212-231 | From no credits at limit L, k calm samples give exactly min(physicalMax, L + recoveryStep * floor(k / lowWaterRecoverySamples)) |
| `MemoryWatermark.PressureRaisesIffBelowMinimum` | mcps/memory-store/src/agy-memory-watermark.ts:196-210 | Pressure never raises the limit, except to the minimum from below it: exactly then |
| `MemoryWatermark.PressureRaisesAfterClear` | mcps/memory-store/src/agy-memory-watermark.ts:124-262 | A concrete run for every hash: freeze, clear, and a sample under pressure that raises the limit from 0 to the minimum |
| `MemoryWatermark.PressureReachesMinimum` | mcps/memory-store/src/agy-memory-watermark.ts:196-210 | k pressure samples bring the limit down to max(minimum, L - k) or below, never under the minimum |
| `MemoryWatermark.CountersTellTheSamples` | mcps/memory-store/src/agy-memory-watermark.ts:196-240 | From an initial state the counters, credits and times are those of the samples seen: present run of pressure, credits of an unbroken calm only, last sample, last pressure |
| `TaskQueue.BackgroundTaskQueue.Enqueue` | mcps/memory-store/src/background-tasks.ts:270-274 | At every entry, re-entrant ones included: counters are true counts, lanes within limits, starts in enqueue order; afterwards no waiting job has a free slot, and no job is lost |
| `TaskQueue.BackgroundTaskQueue.FindRunnable` | mcps/memory-store/src/background-tasks.ts:287 | The first waiting job whose lane has room, which is the first of its lane, or nothing can run |
| `TaskQueue.BackgroundTaskQueue.Launch` | mcps/memory-store/src/background-tasks.ts:289-293 | Starting a job, and all it enqueues before it waits, keeps the invariants |
| `TaskQueue.BackgroundTaskQueue.Drain` | mcps/memory-store/src/background-tasks.ts:285-301 | Draining terminates and leaves no waiting job with a free slot |
| `TaskQueue.BackgroundTaskQueue.Complete` | mcps/memory-store/src/background-tasks.ts:295-299 | A finished run frees exactly its own slot, and the queue is drained again |
| `TaskQueue.WaitingLaneIsFull` | mcps/memory-store/src/background-tasks.ts:303-306 | A lane with waiting jobs runs exactly as many as it may, which is its configured number rounded down, or one when that is not positive, and has started exactly the jobs enqueued before the waiting ones |
| `Suspension.BackgroundTask.Settle` | mcps/memory-store/src/background-tasks.ts:1303-1324 | Only a running task takes a terminal status; otherwise nothing changes |
| `Suspension.BackgroundTask.UpdateProgress` | mcps/memory-store/src/background-tasks.ts:1283-1301 | Only a running record takes a progress report |
| `Suspension.BackgroundTask.RunSuspends` | mcps/memory-store/src/background-tasks.ts:391-425 | A suspension takes the next revision and arms its timer; it is left with an executor iff it came while the status was running |
| `Suspension.BackgroundTask.WakeUp` | mcps/memory-store/src/background-tasks.ts:1381-1448 | Wakes iff status and revisions match, there is an executor and the claim is free: one queue entry, never twice for a revision; else nothing changes |
| `Suspension.BackgroundTask.TimerFires` | mcps/memory-store/src/background-tasks.ts:353-389 | A stale timer changes nothing but its own entry; one of the present suspension is armed again before its time, and after it wakes iff there is an executor and the claim is free |
| `Suspension.BackgroundTask.Begin` | mcps/memory-store/src/background-tasks.ts:1326-1328 | A queue entry whose task no longer runs ends at once |
| `Suspension.BackgroundTask.Cancel` | mcps/memory-store/src/background-tasks.ts:2295-2318 | Cancelling makes a running or suspended record terminal and takes its executor and timer; without an executor an armed timer stays; a terminal record is left alone |
| `Suspension.BackgroundTask.Recover` | mcps/memory-store/src/background-tasks.ts:1082-1164 | Recovery gives an executor and the timer of the present suspension to a suspended record that can be timed, and does nothing else |
| `Suspension.BackgroundTask.Step` | mcps/memory-store/src/background-tasks.ts:1269-1448 | Whatever happens: revisions and wakes only grow, a terminal record changes iff a suspension signal arrives from a run still on its way, and a lost executor comes back by recovery only |
| `Suspension.BackgroundTask.Steps` | mcps/memory-store/src/background-tasks.ts:1269-1448 | Over every sequence of events: no revision is woken twice, every wake is one queue entry, a terminal record is final unless a signal comes late, and without an executor nothing but recovery leads to another wake |
| `Suspension.LateSignal` | mcps/memory-store/src/background-tasks.ts:1303-1363 | A run that times out and then asks for suspension leaves a suspended record with its timer and no executor, and no sequence of events without a recovery ever runs it again |
| `Suspension.StaleTimer` | mcps/memory-store/src/background-tasks.ts:346-389 | Cancelling that record leaves its timer armed, and the timer then changes nothing |
| `SourceWork.WantedOnce` | mcps/memory-store/src/codex-source-work.ts:24-35 | For one key at most one piece of work is ever wanted by a live caller |
| `SourceWork.SourceWork.Join` | mcps/memory-store/src/codex-source-work.ts:23-37 | A caller shares work iff a live caller still waits for it; it never joins work that was told to stop |
| `SourceWork.SourceWork.IsCancelled` | mcps/memory-store/src/codex-source-work.ts:27-28 | Work is told to stop only when nobody live waits, and that stays so |
| `SourceWork.SourceWork.Settle` | mcps/memory-store/src/codex-source-work.ts:30-33 | Finishing work removes its own entry and no other |
| `SourceWork.SourceWork.Leave` | mcps/memory-store/src/codex-source-work.ts:39-55 | A caller leaves with the answer of settled work or with its own cancellation |
| `PrefixFlights.Registry.Ask` | mcps/memory-store/src/codex-adopted-prefix-proof.ts:47-131 | A caller joins an uncancelled flight, starts one, or waits for a cancelled one: never joins it |
| `PrefixFlights.Registry.IsCancelled` | mcps/memory-store/src/codex-adopted-prefix-proof.ts:58-61 | A flight is told to stop iff everybody attached has given up, and then everybody who ever joined has |
| `PrefixFlights.Registry.Finish` | mcps/memory-store/src/codex-adopted-prefix-proof.ts:108-121 | The consumer count is the number of unfinished callers; the last to leave before the end cancels |
| `PrefixFlights.Registry.Settle` | mcps/memory-store/src/codex-adopted-prefix-proof.ts:101 | A finishing flight removes its own entry and no other |
| `PrefixFlights.Registry.Deliver` | mcps/memory-store/src/codex-adopted-prefix-proof.ts:130 | A settled flight reaches every consumer and is not cancelled by their leaving |
| `SummaryJournal.Process.RecoverJournal` | mcps/memory-store/src/auto-summary-storage.ts:110-132 | Under any faults: the file stays, or moves from a side of an unfinished journal to the side it is heading for; success means the specified disk; without faults result and disk are as specified |
| `SummaryJournal.Process.RecoverWriteback` | mcps/memory-store/src/auto-summary-storage.ts:134-143 | The file changes only along the active journal, and nothing happens at all when its backup is not the snapshot the caller expects; source and backups stay sound; success means that file, indexes and journal agree |
| `SummaryJournal.Process.Restore` | mcps/memory-store/src/auto-summary-storage.ts:145-156 | The file changes only from a side of the named journal to its old side; without faults file, index and journal end there |
| `SummaryJournal.Process.Supersede` | mcps/memory-store/src/auto-summary-storage.ts:73-81 | Superseding never touches the file and clears the pointer last |
| `SummaryJournal.Process.WriteSummary` | mcps/memory-store/src/auto-summary-storage.ts:167-215 | Under any faults: the file changes only to the side a pending journal heads for, or to the patch of a content whose snapshot still has the fingerprint, and source and summary where given, that the request names; with no journal on a side a request made for another content leaves the whole disk as it is and is stale, existing, invalid or missing as the fields of the snapshot say; success means that file, indexes and journal agree |
| `SummaryJournal.JudgeMeans` | mcps/memory-store/src/auto-summary-storage.ts:180-190 | The checks in front of a write pass iff the snapshot has the fingerprint, source and summary the caller has seen and no summary the caller does not know; a refusal is stale whenever fingerprint or source differ |
| `SummaryJournal.Regenerate` | mcps/memory-store/src/tools/update.ts:247-268 | A regeneration with the snapshot taken before generating: if fingerprint, source or summary differ by now, the result is stale and nothing on disk has changed; if not, the file is as it was or the patch, and without faults it is the patch |
| `SummaryJournal.RecoveryConverges` | mcps/memory-store/src/auto-summary-storage.ts:110-132 | One fault-free recovery leaves file, index and phase on the intended side; a second changes nothing |
| `SummaryJournal.IndexComesBack` | mcps/memory-store/src/auto-summary-storage.ts:118-131 | A recovery that finds no index entry turns the file and leaves the journal pending; once the entry is back, the next one ends in the same disk as if it had never been gone |
| `SummaryJournal.RecoveryLeavesOutsideEdits` | mcps/memory-store/src/auto-summary-storage.ts:113-115 | A file on neither side is left alone |
| `SummaryJournal.WriteBackStoresThePatch` | mcps/memory-store/src/auto-summary-storage.ts:172-214 | A fault-free write-back of an accepted file stores the patch, with a complete journal of exactly the two contents under their operation id; a journal overtaken by an outside edit is superseded, not replayed |
| `SummaryJournal.AcceptedWriteEndsTheWait` | mcps/memory-store/src/auto-summary-storage.ts:172-195 | After an outside edit has left a pending journal with neither side on disk, a fault-free write ends that state iff the file passes its checks and the caller names its source |
| `SummaryJournal.BackupsStayLoadable` | mcps/memory-store/src/auto-summary-storage.ts:59-71 | Every backup left behind passes its own load check |
| `SummaryJournal.Perform` | mcps/memory-store/src/auto-summary-storage.ts:134-215 | Each operation of the code, under any faults and cut short anywhere, changes the file only along a journal that has it on a side or after a content has passed its checks, keeps source and backups, and settles the disk when it reports success |
| `SummaryJournal.PerformAll` | mcps/memory-store/src/auto-summary-storage.ts:52-215 | Over every list of real operations and outside edits: all of that at every step, and from the last edit on the file keeps its source and a pending journal stays on its sides |
| `SummaryJournal.RunAndRecover` | mcps/memory-store/src/auto-summary-storage.ts:110-215 | After any such run, one fault-free recovery reaches the intended side with file, indexes and phase in agreement and the next changes nothing, if the journal was on its sides after the last edit or any operation has succeeded since |
| `SummaryText.PatchKeepsTheSource` | mcps/memory-store/src/auto-summary-storage.ts:83-93 | For every LF-only file and every summary or failed record: splitting and stripping the patched file gives the same parts as the original |
| `SummaryText.StripTwice` | mcps/memory-store/src/auto-summary-snapshot.ts:34-36 | Dropping one field first makes no difference: no continuation line slips behind another field |
| `SummaryText.ReadableSplits` | mcps/memory-store/src/auto-summary-snapshot.ts:29-32 | A file that can be read splits with nothing before its front matter, so a patch loses nothing |
| `SummaryText.SummaryIsReadBack` | mcps/memory-store/src/store.ts:1037-1099 | Reading the patched file gives the summary back iff its first line is not empty; otherwise leading empty lines are lost, and a summary of empty lines is not there at all; the provenance line comes back as it is |
| `SummaryText.FieldsAreReadBack` | mcps/memory-store/src/store.ts:1037-1099 | A file written field by field, as values or blocks of either style, is read as exactly these fields, the last of a key winning, values trimmed, and blocks from their first line that is not empty |
| `SummaryText.TrimTakesTheEnds` | mcps/memory-store/src/store.ts:1064-1069 | Trimming takes white space away at both ends only, and all of it |
| `PatchedFields.PatchKeepsOtherFields` | mcps/memory-store/src/auto-summary-storage.ts:83-93 | For every readable file in which no dropped field stands behind an opened, still empty block: the patched file reads as the original apart from the provenance and, after a successful generation, the summary, so a failed one keeps the old summary; the new provenance is read in every file; of a file with two marks at its start no other field is left |
| `PatchedFields.InvisibleIffNothingHangs` | mcps/memory-store/src/auto-summary-storage.ts:83-93 | Exactly when a field may be dropped: behind given lines, dropping any field of a key, whatever text it has and whatever follows, leaves all other fields as they are read iff no open, empty block waits for text there |
| `PatchedFields.TextIsLost` | mcps/memory-store/src/auto-summary-storage.ts:83-93 | A concrete file that loses the text of another field by a patch |
| `AdaptiveGate.AdaptiveConcurrencyGate.constructor` | mcps/memory-store/src/adaptive-concurrency.ts:22-35 | Whatever numbers come in, 1 <= min <= limit <= max |
| `AdaptiveGate.AdaptiveConcurrencyGate.OnFailure` | mcps/memory-store/src/adaptive-concurrency.ts:52-56 | A failure gives max(min, floor(L / 2)) and resets the streak |
| `AdaptiveGate.ClimbIsExact` | mcps/memory-store/src/adaptive-concurrency.ts:41-50 | After k successes from the minimum the limit costs at most k and one more would cost more; the streak is the rest |
| `AdaptiveGate.ClimbIsGreatest` | mcps/memory-store/src/adaptive-concurrency.ts:41-50 | So it is the greatest m <= max with min + ... + (m - 1) <= k |

## Left out

- Cancellation callbacks, progress callbacks and error texts of the readers: a cancelled read only stops earlier.
- `readJsonlLines` on lines over its limit and on an unterminated last line that a later append extends: `IncrementalRounds` takes an append as whole lines.
- The checks in front of `readClaudeCodeRoundTail` (anchor hash, size and time of the file): the model starts where they have passed.
- IncrementalRounds.ReplayIsExact: asks that at the replay point no thinking is pending, no older compaction boundary is pending, nothing opens a round between a boundary and its summary, and no later result names a use of an earlier round; without these the replay cannot know what the full build knows.
- Rounds.Builder.Handle: texts, attachment descriptions and printed views are opaque strings, pending thinking is kept as a list of parts instead of one joined string, and byte offsets are always present.
- TailScan.ScanTailReverse: what a line says, once its bytes are decoded and parsed, is a parameter; a single read failure in the middle is not modelled.
- HistoryWindow.ReverseRecords: the nested loops read blocks as views of the file; a file that changes during the read is not modelled.
- PrefixDigest.DigestCache.HashPrefix: a printed identity stands for the identity itself, so two prints of one identity with another key order, which only cost a hit, are not told apart.
- ZstdFrames.InspectFrames: inspects a file that keeps its size and bytes; that a frame's bytes are unchanged when they are decompressed is not part of this model, nor are the decompressors.
- FrameLayouts.LayoutCache.Frames: the generator is drained; a consumer that stops early, or a file that changes between two yields, is not modelled.
- SummaryJournal.PerformAll: an outside edit falls between two operations, not between an operation's look at the file and its write; the memory lock, the file's write lock and `autoSummaryRecoveryInfo` are not modelled.
- SummaryJournal.Process.WriteSummary: the checks on summary and provenance parameters before the lock, and how provenance is filled in, are part of the `patch` parameter.
- SummaryText.PatchKeepsTheSource: files with CR, U+2028 or U+2029 as further line terminators are not modelled, nor are the array, quote and boolean values of `parseMemoryFile`.
- PatchedFields.PatchKeepsOtherFields: asks that no dropped field stands behind an opened block without text; `InvisibleIffNothingHangs` is the exact condition for a drop that is safe whatever text the field has and whatever follows, but one file of the other kind may still read the same.
- CommandLine.ScriptQuote: walks UTF-16 code units where the source walks code points; no half of a surrogate pair is a quote, a backslash or white space.
- StableJson.StableText: numbers are known by their printed text; getters, proxies and error paths are not modelled.
- Suspension.BackgroundTask.Step: one background task in one process with successful writes; expired claims, other processes that change a task file, the recovery of running and settled ones, and every part of a progress report but its stage are not modelled.
- TaskQueue.BackgroundTaskQueue.Enqueue: a run that throws before its first wait counts as one that completes later.
- PrefixFlights.Registry.Finish: when a caller's error is handed on, at once or after the flight has ended, is not modelled.
- MemoryWatermark.ObserveIsSafe: ratios, products and times are real numbers, so floating-point rounding is not modelled; observed byte counts enter the evidence only.
- SHA-256 and FNV-1a, disk-space probes, publishing cached views, Win32 calls, process control, logging and user-facing text.
- The corpus collector and publication of history windows, record-scheduler admission and recovery, and all of `mcp-subagent`.
- Scoring and title matching of conversations, attachment and image handling: heuristics without a crisp specification.
