# Verified model of the witness agent's tailing core

witness tails log files, journald and the macOS unified log, assembles lines and records,
offers them to an SDK channel that may refuse, and advances a persisted position only when it
is allowed to. This project models that core in Dafny and proves what its comments promise over
whole runs: no byte lost, no record split by where a poll ended, no checkpoint past an unshipped
entry. It also covers the logfmt scanner, the file table, the offset file, the bounded `statvfs`
reader, the remote-config poller and mount-table parsing.

`dafny verify dfyconfig.toml` checks everything.

## How it is organised

- `Utf8`, `Lines`, `LineReaders`, `Assembly`: text. A Rust `String` is a Dafny `string`, its
  length is the length of its UTF-8 encoding (section 3 of RFC 3629), and lossy decoding is
  written out, so truncation at a character boundary and decoding of split input are real.
- `Multiline`, `MultilineRuns`, `Segments`, `MultilineConfluence`: the aggregator as functions on
  the tail state, the run theorems, and the reference segmentation.
- `MultilineShutdown`: what a flush at shutdown does to the records around it.
- `SingleLine`, `SingleLineCuts`, `SingleLineRuns`: the default path, its run theorems, and what
  crashes and shutdowns cost it, line by line and as lists of entries.
- `Polls`, `SinglePolls`: one poll as a function of the file and of the answers the sink will
  give, where it stops and why. `PollIsRun` makes every poll a run. `Rotations` and the second
  half of `SinglePolls` are about the polls that drain a rotated-out file.
- Tailer: `TailedFile` as a class with the loops of both paths. Each method's contract equates
  the new state and the answers left with the functions above, so the theorems about runs,
  polls and drains speak about the methods.
- `FileTable`, `Offsets`: the two maps of the watcher, and the offset file.
- `Logfmt`, `Journal`, `Unified`, `SpaceReader`, `RemoteConfig`, `Mounts`: one source component
  each. `Options` holds the shared `Option`.

The invariants are inhabited: `Multiline.FreshTiled`, `MultilineRuns.StartInv`,
`MultilineConfluence.StartCalm` and `SingleLineRuns.StartInv` establish them for a file that has
just been registered.

Modelling choices that hold throughout:

- The sink is an accept/refuse oracle: a run names the answer at every offer, and theorems
  quantify over all of them. Time is a number passed in. The start pattern and `parse_config`
  are arbitrary predicates.
- One `Read` event is one turn of the reading loop. A run may grow the file, end a poll, refuse
  or crash between any two lines, so the per-poll line cap and growth during a poll need no case
  of their own.
- Files only grow, except for the explicit `Truncate` event, which is a truncation to below
  `pos` (the code compares the length with `pos`, `src/logs/watcher.rs:650`).
- Text equality across polls is stated for files that grow by whole characters and whose lines
  fit the 1 MiB partial buffer: a split inside a character is visible in the decoded text
  (`Utf8.SplitInsideCharacter`). ASCII growth is a special case (`Utf8.AsciiWhole`). Byte
  coverage needs neither assumption.

Where a claim in the source's comments does not hold as written, the model keeps the code,
exhibits an input, and proves for all inputs exactly when it does hold:

| claim | fails on | holds if and only if |
|---|---|---|
| a crash of the single-line path loses no line and invents none | `SingleLineRuns.PartialLostByCrash`, `SingleLineRuns.FragmentAddedByCrash` | `SingleLineRuns.CrashExactly`; line by line `SingleLineRuns.WholeExactly`, life by life `SingleLineRuns.FragmentExactly` |
| a clean shutdown hands every line over whole | `SingleLineRuns.LineSplitByShutdown` | `SingleLineRuns.ShutdownExactly` |
| a rotation hands every line over whole | the cut of `SingleLineRuns.LineSplitByShutdown` | `SinglePolls.RotationExactly` |
| a shutdown splits no multiline record | `MultilineShutdown.RecordSplitByShutdown` | `MultilineShutdown.RefusedShutdown` (never when refused), `MultilineShutdown.AcceptedShutdown` |
| a drain splits no line and no record | `Rotations.TornByGrowth` | `Rotations.RotationExactly` |
| a capped record is a prefix of the joined lines | `Assembly.CappedJoinNotPrefix` | `Assembly.CappedJoinExactly` |
| a restart skips nothing | `MultilineRuns.RestartWithoutSaveSkips` | `MultilineRuns.RestartCoversExactly` |
| the offset file restores every entry | `Offsets.DrainingOffsetLost` | `Offsets.RestoredExactly`, `Offsets.SurvivesEveryOrder` |
| discovery leaves the two maps inverse | `FileTable.TwoIdentitiesInconsistent` | `FileTable.DiscoverConsistentExactly` |
| no journal entry is passed unshipped | `Journal.OversizedPassed` | `Journal.LostExactly` |
| the unified-log checkpoint only moves forward | `Unified.StructuralMovesBack` | `Unified.MovesBackExactly` |
| a clean restart ships nothing of the unified log twice | `Unified.ShippedAgain` | `Unified.ShippedAgainExactly` |

## Model

| member | source | states |
|---|---|---|
| `LineReaders.LineReader.ReadLine` | src/logs/text.rs:30-59 | for every sequence of short, interrupted or failing fills it appends exactly the shortest remaining prefix ending in a newline, or everything to the end, and consumes exactly that; after an error the consumed bytes stay appended and hold no newline |
| `Utf8.LossyAfterWhole` | src/logs/text.rs:12-23 | lossy decoding commutes with a split at a character boundary, whatever bytes follow |
| `Utf8.DecodeExactly` | src/logs/text.rs:12-23 | on every byte string a character is decoded exactly where its encoding stands; anything else becomes U+FFFD |
| `Utf8.ReplacedLongest` | src/logs/text.rs:12-23 | one U+FFFD stands for a single byte or for as many bytes as could begin a character, and one more could not |
| `Utf8.LossyAscii` | src/logs/text.rs:12-23 | whatever malformed bytes stand before it, an ASCII byte comes through |
| `Utf8.NormalizeIs` | src/logs/multiline.rs:419-422 | normalization of a text, with or without a leading mark, followed by any whitespace gives the text |
| `Utf8.NormalizeShape` | src/logs/multiline.rs:419-422 | the normalized form never ends in whitespace, and every text is that form, perhaps after a mark, followed by whitespace |
| `Utf8.NormalizeCrLf` | src/logs/watcher.rs:865-869 | a carriage return before the newline is dropped |
| `Utf8.TrimIs` | src/logs/watcher.rs:903-904 | trimming takes whitespace off both ends and nothing else |
| `Utf8.WholeBeforeNewline` | src/logs/text.rs:25-29 | cutting whole characters at a newline byte leaves whole characters |
| `Utf8.FloorBoundaryIsFloor` | src/logs/multiline.rs:395-405 | stepping back over continuation bytes truncates UTF-8 text to its longest prefix of whole characters within the cap |
| `Assembly.FloorLongest` | src/logs/multiline.rs:395-405 | every prefix within the cap is a prefix of what the cap leaves |
| `Assembly.PartialCapped` | src/logs/watcher.rs:779-789 | for every sequence of chunks the partial text stays within 1 MiB and is empty exactly when no chunk is pending |
| `Assembly.PartialFills` | src/logs/watcher.rs:779-789 | the buffer holds everything pending while it fits and is full to within three bytes once it does not |
| `Assembly.CappedJoinIsPrefix` | src/logs/multiline.rs:392-405 | for ASCII, capping after every line gives the first `max_bytes` bytes of the full join with leading blank lines dropped |
| `Assembly.CappedJoinExactly` | src/logs/multiline.rs:392-405 | for every list of lines and every cap the capped record keeps at least the prefix of the full join that fits, and is that prefix if and only if no cut left room: wherever the join of the first lines exceeds the cap, its floor fills the cap, or nothing fitted and nothing of the next line does |
| `Assembly.CappedJoinNotPrefix` | src/logs/multiline.rs:392-405 | an instance where it is not: room left by a character that did not fit is filled by the next line |
| `Assembly.LineTextOfWhole` | src/logs/multiline.rs:245-254 | the text of a line does not depend on the chunks it was read in, when they hold whole characters within the buffer limit |
| `Multiline.TiledSpans` | src/logs/multiline.rs:60-75 | what the counters mean: record span, newline-free partial span, empty partial text if and only if no pending byte, both texts within their caps |
| `Multiline.ShipTiled` | src/logs/multiline.rs:280-314 | shipping, or being refused, keeps the tiling |
| `Multiline.StepTiled` | src/logs/multiline.rs:191-278 | every turn of the reading loop keeps the tiling, whatever the sink answers |
| `Multiline.FoldTiled` | src/logs/multiline.rs:378-390 | folding the trailing sub-line keeps the tiling and leaves no pending byte |
| `Multiline.FlushRetry` | src/logs/multiline.rs:157-165 | a refused final flush, repeated later without reading, ends as a single flush would |
| `MultilineRuns.TilingOverRuns` | src/logs/multiline.rs:60-90 | in every run `read_ahead == pos + record_bytes + partial_bytes`, the record in flight is exactly `file[pos..pos + record_bytes]`, the partial exactly the newline-free `file[pos + record_bytes..read_ahead]`, and both texts are what those bytes render to, within their caps |
| `MultilineRuns.CrashSafety` | src/logs/multiline.rs:12-19 | over any run of growth, reads, refusals, timeouts, flushes, truncation, saves and restarts, every byte between the base offset and `pos` was shipped or skipped as blank in a record that carries exactly its bytes, and each life's records tile the file without gap or overlap |
| `MultilineRuns.NoByteSkipped` | src/logs/multiline.rs:319-327 | without truncation and with restarts only after a save, no byte from the first offset to `pos` is ever skipped |
| `MultilineRuns.RestartAtSave` | src/logs/watcher.rs:463-469 | a restart resumes exactly at the saved offset, which is not after the crashed one |
| `MultilineRuns.OnlyUnsavedRepeat` | src/logs/watcher.rs:44-47 | nothing before the saved offset is ever shipped again by the life that follows |
| `MultilineRuns.ChainOnce` | src/logs/multiline.rs:308-312 | within one life no byte is shipped in two records |
| `MultilineRuns.IdleSince` | src/logs/multiline.rs:275-277 | in every run the idle time of the record in flight counts from the last line appended to it |
| `MultilineRuns.ExpiresExactly` | src/logs/multiline.rs:332-359 | in every run the timeout ships the record in flight if and only if the last line was appended at least the timeout ago, and otherwise changes nothing |
| `MultilineRuns.RestartCoversExactly` | src/logs/watcher.rs:463-469 | over every run, every byte up to where a restart would resume has been shipped if and only if that offset is not after `pos`; a usable saved offset never is, a missing one is unless `pos` is the end of the file |
| `MultilineRuns.RestartWithoutSaveSkips` | src/logs/watcher.rs:463-469 | an instance: a restart before the first save begins at the end of the file and loses unshipped bytes |
| `Segments.SegmentIs` | src/logs/multiline.rs:3-10 | the reference segmentation holds all lines in order, in non-empty groups; every group after the first begins with a line whose normalized text is not empty and matches the pattern, and no later line of a group is such a line |
| `Segments.SegmentUnique` | src/logs/multiline.rs:3-10 | there is no other segmentation |
| `Segments.SegmentStable` | src/logs/multiline.rs:116-121 | lines that arrive later never change a group before the last |
| `Segments.NormalLineMeans` | src/logs/multiline.rs:245-255 | a line's text is its decoded bytes without the newline, trailing whitespace and a leading mark |
| `MultilineConfluence.PosAligned` | src/logs/multiline.rs:12-19 | `pos` always rests at the base or at a complete start line, so a restart re-derives the record in flight |
| `MultilineConfluence.Confluence` | src/logs/multiline.rs:191-278 | however the file grows between reads, wherever polls end, whatever is refused and whenever the agent restarts from a save, the shipped records are in order the groups of the one-shot segmentation, in lines and in text, continuing at the group that begins at the saved offset |
| `MultilineConfluence.Completion` | src/logs/multiline.rs:128-166 | once the whole file is read, one accepted flush leaves exactly the one-shot segmentation shipped, trailing line folded into the last record, `pos` at the end and nothing in flight: a rotated-out file is drained completely and its record in flight is not split |
| `MultilineShutdown.RefusedShutdown` | src/logs/multiline.rs:316-327 | a shutdown whose flush is refused lets the restart derive the record again: whatever follows, the run is the one with a save and a restart in its place and its records are still groups of the one-shot segmentation |
| `MultilineShutdown.AcceptedShutdown` | src/logs/watcher.rs:362-375 | after a shutdown whose flush is taken and a second run that reads to the end, the records of the two are those of the whole file if and only if nothing was read before the shutdown, nothing follows it, or it lies at the end of a line and the next line starts a record |
| `MultilineShutdown.CutExactly` | src/logs/multiline.rs:3-10 | the segmentations of two parts of a file make that of the whole exactly when the cut is such a place |
| `MultilineShutdown.RecordSplitByShutdown` | src/logs/watcher.rs:362-375 | two runs around a shutdown that splits a record |
| `Tailer.TailedFile.Ship` | src/logs/multiline.rs:284-314 | `pos` moves by the record's full span if and only if the record is blank or taken; the sink got exactly the non-blank record |
| `Tailer.TailedFile.CommitLine` | src/logs/multiline.rs:237-278 | the log grows by the record in flight exactly when the completed text is not empty, matches the pattern, and the record is blank or taken; a refusal leaves every field as it was |
| `Tailer.TailedFile.ReadLoop` | src/logs/multiline.rs:191-235 | state, answers left and reason to stop are those of a poll on the sink's own answers; only a read error ends it otherwise; the sink got exactly what the log gained |
| `Tailer.TailedFile.ReadLive` | src/logs/multiline.rs:104-122 | without a read error it is the whole poll from `read_ahead`: it reads to the end of the file, to a refusal or to the line cap, and never flushes |
| `Tailer.TailedFile.FlushFinal` | src/logs/multiline.rs:319-327 | shutdown folds and offers once; a refusal leaves `pos` at the record's start |
| `Tailer.TailedFile.FlushIfExpired` | src/logs/multiline.rs:332-359 | offers only a record idle for the timeout, and reports exactly the time left to it if and only if it is still pending |
| `Tailer.TailedFile.Reset` | src/logs/multiline.rs:364-369 | the record in flight is discarded and reading restarts at `pos` |
| `Tailer.TailedFile.CheckAndRead` | src/logs/watcher.rs:647-672 | a length below `pos` restarts at 0 with nothing in flight; an unread tail is read by one whole poll, and nothing else happens |
| `Tailer.TailedFile.Drain` | src/logs/multiline.rs:128-166 | with working seeks and reads it is one drain poll; a sink that takes what it is offered makes it give the descriptor up or read further |
| `Tailer.TailedFile.TryEmitLine` | src/logs/watcher.rs:848-895 | a line of whitespace is passed; any other is emitted once accepted, without trailing whitespace and a leading mark; a refusal changes neither offset nor partial |
| `Tailer.TailedFile.ReadLines` | src/logs/watcher.rs:797-842 | without a read error it is the whole poll of the single-line path on the sink's own answers, and the sink got exactly what was emitted |
| `Tailer.TailedFile.CheckAndReadLines` | src/logs/watcher.rs:647-672 | a truncation hands the pending text over and restarts at 0; an unread tail is read by one whole poll |
| `Tailer.TailedFile.FlushPartial` | src/logs/watcher.rs:898-908 | the trimmed pending text is handed over whatever the sink answers, and nothing if it is blank |
| `Tailer.TailedFile.DrainRetained` | src/logs/watcher.rs:731-777 | with working seeks and reads it is one drain poll: the lines read are offered in turn, and at the end of the file the pending text is handed over and the descriptor goes; a sink that takes what it is offered makes it finish or read further |
| `Polls.TurnReads` | src/logs/multiline.rs:199-233 | what each reason to stop means: at the end nothing is unread, at a refusal nothing changed and the sink said no to the record in flight, in every other case the turn read a byte |
| `Polls.PollIs` | src/logs/multiline.rs:191-235 | a poll always stops, within the unread bytes plus one turns, and at one state only |
| `Rotations.CapExactly` | src/logs/multiline.rs:204-214 | a poll commits at most 32000 lines and stops at the cap exactly when it has committed as many |
| `Polls.PollIsRun` | src/logs/watcher.rs:664-667 | a poll is a run of read events, so the run theorems hold of it |
| `Polls.DrainAdvances` | src/logs/multiline.rs:146-166 | with a sink that takes what it is offered one drain poll drops the descriptor or leaves strictly fewer unread bytes |
| `Rotations.DrainTerminates` | src/logs/multiline.rs:124-127 | with such a sink the descriptor is gone after at most one poll more than there are bytes unread or written during the drain |
| `Polls.DrainKeeps` | src/logs/multiline.rs:128-166 | whatever the sink answers, one drain poll gives the descriptor up only when the whole segmentation of the file has been shipped; a refused final offer is made again unchanged |
| `Rotations.NoByteLost` | src/logs/multiline.rs:128-166 | after any run, whatever is written to the old file while it is drained and whatever the sink answers: once the descriptor is gone every byte then in the file was shipped in a record that carries exactly its bytes, and nothing is in flight |
| `Rotations.RotationExactly` | src/logs/multiline.rs:128-166 | for every calm run, every growth during the drain, every script of answers and every number of polls: once the descriptor is gone the shipped records are the one-shot segmentation of the file as it then was, the record in flight at the rotation not split and the trailing line folded in, if and only if nothing was written after a final offer that was refused with a line folded into it; and then in text too |
| `Rotations.TornByGrowth` | src/logs/multiline.rs:154-163 | an instance: a refused fold followed by growth makes two lines of one |
| `SinglePolls.PollIsRun` | src/logs/watcher.rs:664-667 | the same for the single-line path |
| `SinglePolls.PollIs` | src/logs/watcher.rs:797-842 | a poll of the single-line path always stops, and at one state only |
| `SinglePolls.DrainTerminates` | src/logs/watcher.rs:725-730 | with a sink that takes what it is offered the descriptor is gone after at most one poll more than there are bytes unread or written during the drain |
| `SinglePolls.RotationCompletes` | src/logs/watcher.rs:731-777 | after a rotation, whatever is written to the old file while it is drained and whatever the sink answers, everything then in it was emitted line by line from where it was flushed and its trailing text handed over before the descriptor goes |
| `SinglePolls.RotationExactly` | src/logs/watcher.rs:631-638 | the entries before the rotation, the text flushed at it and those of the drain are the file's if and only if that text was blank and the cut harmless, or the rest of its line is blank and the text is the whole entry |
| `SingleLineRuns.SplitRefinement` | src/logs/watcher.rs:797-895 | for any growth, poll boundaries and refusals the emitted list is exactly the non-blank normalized lines ending before `pos`, in order and once each, and the partial is the text after the last of them |
| `SingleLineCuts.ItemIff` | src/logs/watcher.rs:797-895 | the entries of a stretch are exactly its non-blank lines, each at its place in the file |
| `SingleLineRuns.LivesEmit` | src/logs/watcher.rs:797-908 | over any saves, restarts and flushes every life, past or under way, emitted exactly the non-blank lines between its two ends, in order, once each and at their places, and a flush handed over what followed |
| `SingleLineRuns.EntriesTrimmed` | src/logs/watcher.rs:865-874 | in every run an emitted text is its decoded line without trailing whitespace and a leading mark; none ends in whitespace, and no line of whitespace only is emitted |
| `SingleLineRuns.EveryLineRead` | src/logs/watcher.rs:463-469 | with restarts only after a save every line that ends before `pos` was read to its end by some life |
| `SingleLineRuns.WholeExactly` | src/logs/watcher.rs:848-895 | in every run a non-blank line was handed over whole if and only if some life read it to its end from its beginning or from where the rest normalizes the same, or was flushed inside it with the whole text |
| `SingleLineRuns.FragmentExactly` | src/logs/watcher.rs:828-834 | in every run a life emitted an entry that is no line of the file if and only if it began inside a line that reads differently from there and is not blank from there |
| `SingleLineRuns.CrashExactly` | src/logs/watcher.rs:828-834 | in every run every non-blank line read to its end was handed over whole and nothing but whole lines was emitted, if and only if every life began with nothing pending, or no line ends in it, or the first that does normalizes the same from there, or is blank from there and carried whole by another life |
| `SingleLineRuns.ShutdownExactly` | src/logs/watcher.rs:362-375 | after a clean shutdown and restart the entries are those of the file if and only if the pending text was blank and the cut harmless, or the rest of its line is blank and the text is the whole entry |
| `SingleLineRuns.LineSplitByShutdown` | src/logs/watcher.rs:362-375 | a run in which a clean shutdown hands a line over in two pieces |
| `SingleLineRuns.PartialLostByCrash` | src/logs/watcher.rs:828-834 | a run in which a crash after a save loses the beginning of a line |
| `SingleLineRuns.FragmentAddedByCrash` | src/logs/watcher.rs:828-834 | a run in which the line is handed over whole before the crash and its end once more after it |
| `FileTable.DiscoverConsistentExactly` | src/logs/watcher.rs:287-290 | initial discovery leaves a consistent table if and only if it sees one new identity per path |
| `FileTable.TwoIdentitiesInconsistent` | src/logs/watcher.rs:287-290 | an instance: a path seen with two identities leaves the first live but not indexed |
| `FileTable.AlwaysConsistent` | src/logs/watcher.rs:331-354 | after any sequence of rescans, polls, rotations, lost rotations, drains and evictions `path_index` is exactly the inverse of the non-draining entries |
| `FileTable.PollKeeps` | src/logs/watcher.rs:525-587 | every outcome of polling one file keeps the two maps inverse |
| `FileTable.RotationHandsOver` | src/logs/watcher.rs:559-572 | the old entry drains from where it was, the new inode owns the path from offset 0, all else is untouched |
| `FileTable.LostRotationHandsOver` | src/logs/watcher.rs:573-581 | the old identity is gone, an identity not otherwise tracked owns the path from its first byte even if the file is old, all else is untouched |
| `FileTable.RescanAtEnd` | src/logs/watcher.rs:347-354 | a file found by a rescan is followed from its end, unless it is old, its path is taken or its identity tracked |
| `FileTable.EvictedExactly` | src/logs/watcher.rs:331-343 | in every run an eviction removes an entry if and only if it is live and its file could not be opened thirty times in a row |
| `FileTable.SkippedStays` | src/logs/watcher.rs:530-533 | in every run the entry of a UTF-16 file stays as it was registered |
| `FileTable.Tracker.RegisterFile` | src/logs/watcher.rs:419-485 | an identity already tracked, missing or too old changes nothing; any other starts at the given offset, its checkpoint capped by the length, or the end |
| `FileTable.Tracker.PollOne` | src/logs/watcher.rs:525-587 | the effect of each poll outcome on both maps: where the entry stands, how its failures count, and that either kind of rotation reads the replacement from its first byte |
| `FileTable.Tracker.PollAll` | src/logs/watcher.rs:514-590 | the loop over the identities is the run of their polls and keeps the maps inverse |
| `FileTable.Tracker.EvictStale` | src/logs/watcher.rs:331-343 | every listed entry with thirty failures and no descriptor goes, no other kind of entry goes, the rest is untouched and the maps stay inverse |
| `Offsets.ParseDecimal` | src/logs/watcher.rs:988-994 | every 64-bit number survives decimal printing and parsing |
| `Offsets.ParseOverflow` | src/logs/watcher.rs:988-994 | a larger number is refused |
| `Offsets.LineRoundTrip` | src/logs/watcher.rs:962-971 | a printed line parses back to its path, offset and identity |
| `Offsets.LineFormat` | src/logs/watcher.rs:962-971 | a line spelled out: path, offset, device, inode |
| `Offsets.SaveOffsets` | src/logs/watcher.rs:961-971 | the text written is one line per entry |
| `Offsets.LoadOffsets` | src/logs/watcher.rs:981-997 | malformed lines are skipped and a later line of a path replaces an earlier one |
| `Offsets.SaveLoad` | src/logs/watcher.rs:944-997 | with distinct paths free of tab and newline, in whatever order, loading gives back every entry and nothing else |
| `Offsets.RestoredExactly` | src/logs/watcher.rs:961-971 | when identities share a path an entry's offset comes back if and only if no later entry was written under its path |
| `Offsets.SurvivesEveryOrder` | src/logs/watcher.rs:944-971 | the write order is the hash map's: an entry's offset survives every order if and only if no other tracked entry has its path |
| `Offsets.DrainingOffsetLost` | src/logs/watcher.rs:961-971 | an instance: a draining file and its replacement on one path |
| `Offsets.ResumeAfterSave` | src/logs/watcher.rs:448-469 | after save and load, registering the same inode resumes at the smaller of its offset and the length if its entry was the last of its path, and otherwise at the end of the file, or not at all if it is old |
| `Offsets.ResumesAsModelled` | src/logs/watcher.rs:448-469 | where a file is registered is where the run models resume |
| `Logfmt.FieldStart` | src/logs/structured.rs:162-180 | the `=`-anchored backward scan returns, on every byte string, what the per-space reference scan returns |
| `Logfmt.ReferenceFirst` | src/logs/text_test.rs:173-189 | the reference scan returns the first space followed by a key and `=` |
| `Logfmt.RunsInOrder` | src/logs/structured.rs:165-167 | key runs of distinct fields are disjoint and in order |
| `Logfmt.ParseFields` | src/logs/structured.rs:187-263 | terminates in bounds on every input and yields the tokens of the grammar |
| `Logfmt.PrintParse` | src/logs/structured.rs:187-263 | any list of valid keys with arbitrary values, quoted and escaped or bare where allowed, parses back to itself |
| `Logfmt.WordsIgnored` | src/logs/structured.rs:187-263 | a word that does not begin with a key and `=` contributes nothing and hides nothing |
| `Logfmt.UnknownEscapeKept` | src/logs/structured.rs:187-263 | a backslash before any other byte stands for itself |
| `Logfmt.UnterminatedRuns` | src/logs/structured.rs:187-263 | a quoted value without its closing quote runs to the end of the input |
| `Logfmt.SplitPrinted` | src/logs/structured.rs:143-157 | a phrase followed by printed fields splits back into the two if and only if the phrase holds no field |
| `Journal.JournalReader.HandleEntry` | src/logs/journal.rs:130-167 | an entry is retried until taken; cancellation during the wait changes neither cursor nor counters; otherwise the cursor moves if the entry has one, and it is saved at the hundredth entry and not before |
| `Journal.ResumeSafety` | src/logs/journal.rs:217-276 | over every run with refusals, cancellation, failed saves and crashes, what one subprocess shipped is the filter of what it passed, and no cursor is past an owed entry that was not shipped |
| `Journal.BaseFixed` | src/logs/journal.rs:279-292 | after the first save no restart ever skips ahead |
| `Journal.CrashReplays` | src/logs/journal.rs:143-147 | with working saves a crash replays at most 99 handled entries |
| `Journal.StopResumes` | src/logs/journal.rs:241-275 | after cancellation or the end of the stream the next subprocess starts right after the last cursor, or after the one on disk if the save fails |
| `Journal.LostExactly` | src/logs/journal.rs:255-255 | over every run, of the passed entries with something to ship exactly those over the length limit were never shipped |
| `Journal.ShippedExactly` | src/logs/journal.rs:300-345 | over every run a passed entry was shipped if and only if it is within the limit, parses, has a message, and its program, told from the entry's fields, is not the agent, not denied, and allowed if anything is |
| `Journal.OversizedPassed` | src/logs/journal.rs:255-255 | an instance: the cursor passes an entry over the length limit |
| `Unified.DedupeExact` | src/logs/unified_parse.rs:154-161 | within the replayed window dedupe drops exactly the entries up to the checkpoint |
| `Unified.UnifiedReader.Record` | src/logs/unified.rs:323-347 | every position is recorded; the hundredth since the last save is written if the write succeeds, and none before |
| `Unified.UnifiedReader.ShipLine` | src/logs/unified.rs:263-298 | a line is given up only when every try was refused, or in Live at the first refusal five unbroken seconds after the first; giving up leaves the bookkeeping untouched |
| `Unified.UnifiedReader.RunBackfill` | src/logs/unified.rs:165-177 | exactly the owed entries after the checkpoint are shipped, in order and once, each taken by the sink in one of its tries; it ends early only at an owed entry the sink refused every time |
| `Unified.BackfillExact` | src/logs/unified.rs:138-162 | in every run of phases, stalls, interruptions, failed checkpoint writes and crashes each backfill ships exactly the owed entries after its checkpoint up to the line it reached, in stores that may hold structural, malformed and oversized lines |
| `Unified.NothingLost` | src/logs/unified.rs:3-15 | in every such run in which the stream skips nothing, every owed entry up to the recorded checkpoint and up to the durable one was shipped |
| `Unified.CrashReplays` | src/logs/unified.rs:323-352 | over every run whose saves succeed at most 99 positions were recorded since the checkpoint on disk; when there are none it is the last recorded one |
| `Unified.PhaseEndsSave` | src/logs/unified.rs:210-245 | every end of a phase saves; with a working write the next phase starts where the last position was recorded, and with a failed one as after a crash |
| `Unified.CheckpointsTrail` | src/logs/unified.rs:314-352 | on log and trace entries the durable checkpoint is at or before the last recorded one, which is the last settled line of a backfill |
| `Unified.RefusedReplayed` | src/logs/unified.rs:237-241 | after a stalled Live phase, even if the save fails, the backfill starts before the refused entry and, when it drains the store, has shipped it |
| `Unified.MovesBackExactly` | src/logs/unified_parse.rs:148-161 | in every run a backfill line moves the recorded position back if and only if it is a structural entry before it |
| `Unified.StructuralMovesBack` | src/logs/unified_parse.rs:148-152 | an instance of such a line |
| `Unified.ShippedAgainExactly` | src/logs/unified_parse.rs:148-161 | after any run, a drained backfill and a clean restart, the next backfill that drains the store ships an owed entry at or before the old checkpoint if and only if a structural line of the window lies before it, none between it and the checkpoint, and no line after the checkpoint can be read |
| `Unified.ShippedAgain` | src/logs/unified_parse.rs:148-152 | an instance, without crash or refusal |
| `SpaceReader.AtMostOneRead` | src/metrics/disk_space.rs:110-136 | in every interleaving of reads, timeouts, late answers, panics, spawn failures and pruning at most one read per mount is outstanding |
| `SpaceReader.SkippedWhileReading` | src/metrics/disk_space.rs:173-181 | the in-flight flag is up if and only if a read thread of the mount is alive |
| `SpaceReader.ReadUnlessReading` | src/metrics/disk_space.rs:173-183 | over every run a read by a free caller is skipped if and only if a thread of the mount is alive; otherwise a new thread is started and the caller waits on it |
| `SpaceReader.DroppedExactly` | src/metrics/disk_space.rs:156-164 | over every run a mount's state is dropped if and only if the mount is gone and no read of it is out |
| `SpaceReader.TimeoutSeen` | src/metrics/disk_space.rs:183-195 | over every run a timeout is reported, and warned about exactly when no warning of the mount is pending |
| `SpaceReader.AnswerSeen` | src/metrics/disk_space.rs:197-203 | an answer in time is reported and ends a pending warning |
| `SpaceReader.TimeoutsBounded` | src/metrics/disk_space.rs:183-205 | over any stretch of any run the timeouts of a mount exceed the threads that came back in it by at most one for a read begun in it and one the caller was already waiting for, so a mount that stops answering costs no more |
| `SpaceReader.WarningsSeparated` | src/metrics/disk_space.rs:185-203 | two timeout warnings for a mount are separated by an answer or by the loss of its state |
| `RemoteConfig.ConfigHash` | src/remote_config.rs:53-60 | the loop computes 64-bit FNV-1a with wrap-around |
| `RemoteConfig.OneByteSeen` | src/remote_config.rs:53-60 | texts that differ in one byte have different digests |
| `RemoteConfig.KnownDigest` | src/remote_config.rs:53-60 | the published digests of the empty text and of "a" |
| `RemoteConfig.RunPoller` | src/remote_config.rs:137-221 | the loop runs until the first input that ends it; it signals if and only if that one is a new valid config whose write succeeds, which is then the file, and until then the file is untouched; each request carries the entity tag of the last unchanged response that had one |
| `RemoteConfig.DelayBounded` | src/remote_config.rs:137-221 | every wait lies between the interval and the cap |
| `RemoteConfig.DelayDoubles` | src/remote_config.rs:137-221 | after any number of failed fetches in a row the wait is the interval doubled as often, up to the cap |
| `RemoteConfig.AlwaysValid` | src/remote_config.rs:338-361 | at every step, also after a crash inside the write, the file on disk is the initial one or whole text that `parse_config` accepts, and no poller signals twice |
| `RemoteConfig.OneReload` | src/main.rs:118-151 | a server that keeps returning one body causes at most one reload ever, across reloads and crashes |
| `Mounts.UnescapeMountField` | src/metrics/linux/disk.rs:231-258 | the loop decodes every valid octal escape and copies every other byte, on every input |
| `Mounts.UnescapeEscape` | src/metrics/linux/disk.rs:231-258 | unescaping undoes the kernel's escaping of every byte string, whatever else is escaped besides the backslash |
| `Mounts.NoEscapeCopied` | src/metrics/linux/disk.rs:231-258 | bytes in which no escape begins, backslashes included, are copied as they are |
| `Mounts.FieldRoundTrip` | src/metrics/linux/disk.rs:231-258 | a text field comes back as the text it was |
| `Mounts.StableSort` | src/metrics/linux/disk.rs:224-225 | sorted by length, rows of equal length in table order |
| `Mounts.ParseMounts` | src/metrics/linux/disk.rs:205-229 | ordered by length, one entry per device with a row of an allowed type: the row of an allowed type that every other such row of the device exceeds in length, or equals further down |
| `Mounts.BestUnique` | src/metrics/linux/disk.rs:203-204 | that row is unique |

## Left out

- Severity detection, syslog and JSON extraction, payload curation: independent lookups on one entry.
- The Windows event log pump, service installers, setup and the other metric collectors: foreign calls, or single reads with saturating subtraction.
- Glob resolution and the search for a rotated file by inode: their results are inputs of the table events.
- Failed writes of the offset file: the code renames regardless and promises nothing.
- Read errors: the code treats them as the end of the file, also in a drain; the methods cover them, the theorems about whole polls and drains assume none.
- Truncation that lands between `pos` and `read_ahead`, or that is overgrown before the next poll: the code cannot notice it.
- Entries of the unified log written between the end of the replay and the start of the stream, or dropped by the stream without a stall: the code does not recover them, and `Unified.NothingLost` assumes there are none.
- Wall-clock flush deadlines: other branches of the select loop restart the sleep.
- Tailer.TailedFile.FlushPartial: whether the sink keeps the entry is not modelled, because the code does not look.
- SpaceReader.AtMostOneRead: modelled as a state machine on values, because the threads interleave; the flag is taken as sequentially consistent.
- Mounts.ParseMounts: starts from rows already split into fields; the splitting is library code.
- Mounts.StableSort: an insertion sort stands for the library's stable sort.
- RemoteConfig.ConfigHash: the digest is kept as a number, its hexadecimal printing is not modelled.
