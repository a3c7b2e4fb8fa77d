# integrity-utility backup core, modelled in Dafny

This project models the core of a folder-backup tool written in C#. The tool
mirrors a source folder into a destination folder. In each pass it:

- enumerates both trees and builds a file-info dictionary for each, keyed by
  the path relative to that tree's root;
- selects the entries to copy and the entries to remove, counting folders,
  files and bytes;
- copies the selected entries, then removes the selected files, then removes
  the selected folders in reverse discovery order. Removed files go to a
  "removed" folder when one is configured, and are deleted otherwise;
- logs a summary and, when repeating, sleeps until the next pass is due.

Three more parts are modelled alongside the pass:

- The command-line parser of the `Arguments` class: its defaults, options,
  error counter and the `s`/`m`/`h` delay units.
- The logger's text builders: human-readable sizes, the two timestamp
  layouts, the per-reason progress messages and the progress-bar cells.
- The .NET primitives these rely on: integer `ToString()`, `TryParse` and
  unchecked Int32 wrap-around.

Modules, one file each:

| file | module | models |
|---|---|---|
| `wrappers.dfy` | `Wrappers` | `Option`, standing for C# `null` |
| `numerics.dfy` | `Numerics` | decimal rendering, `Int16/Int32.TryParse`, Int32 wrap-around |
| `logger.dfy` | `Logger` | `HumanReadableSize`, `TimeString`, `LongTimeString`, `InfoReason`, `SuccessReason`, `ProgressBar` |
| `arguments.dfy` | `CommandLine` | the `Arguments` class: its constructor and `Parse` |
| `snapshots.dfy` | `Snapshots` | `buildInfoDictionary` and the dictionary it fills |
| `plan.dfy` | `BackupPlan` | the two selection loops of a pass |
| `executor.dfy` | `Executor` | the copy, file-removal and folder-removal loops |
| `pass.dfy` | `BackupPass` | one whole pass and its log lines |
| `schedule.dfy` | `Schedule` | the repeat loop's sleep computation |

How the source's entities are represented:

- **Dictionary.** A .NET `Dictionary<string, DirectoryEntry>` is a sequence of
  entries with distinct keys. Storing under an existing key replaces that
  entry where it stands; a new key is appended. The sequence order stands for
  the order in which `foreach` visits the dictionary.
- **Selection rules.** `DirectoryEntry.ToCopy` and `ToRemove` are defined
  outside the modelled files. Each is a parameter of type `Decision`. A
  `Decision` sees the entry and the other dictionary. It returns whether the
  entry is selected, the `Reason` to log, and the other dictionary as it leaves
  it, because the source passes that dictionary by `ref`.
- **Filesystem.** Each copy, move, delete or directory creation is an oracle
  function from the list index to success or failure.
- **Clock.** The current time, the pass durations and the date/time
  components of the timestamps are inputs.
- **Arguments.** `Arguments` is a class whose fields `Parse` updates in place.
  Its contract ties the new state to `Parsed`, a function over the tokens.

## Model

| member | source | states |
|---|---|---|
| `Numerics.NatToString` | Logger.cs:220 | `ToString()` of an unsigned integer is a non-empty digit string that reads back as the number and has no leading zero |
| `Numerics.NatToStringInjective` | Logger.cs:220 | distinct numbers never print alike |
| `Numerics.TryParse` | Arguments.cs:51 | a parse that succeeds yields a value inside the target type's range |
| `Numerics.ParsedOrZero` | Arguments.cs:51 | the out value of `TryParse` is the parsed value after a success and 0 after a failure, so it always lies in the range |
| `Numerics.TryParseIntToString` | Arguments.cs:51 | parsing the printed form of any in-range integer succeeds and gives that integer back |
| `Numerics.TryParseOutOfRange` | Arguments.cs:51 | the printed form of an integer outside the target type's range does not parse |
| `Numerics.TryParseNeedsDigit` | Arguments.cs:65-81 | a string without a digit never parses |
| `Numerics.WrapInt32` | Arguments.cs:69-73 | an unchecked Int32 result lies in range, is congruent to the true value modulo 2^32, and equals the true value when that fits |
| `Logger.SizeInBytes` | Logger.cs:220 | below 1024 the size prints as its decimal followed by "B" |
| `Logger.SizeInKiB` | Logger.cs:222-224 | from 1 KiB to below 1 MiB the size prints as its exact KiB count, "KiB&", its byte remainder and "B" |
| `Logger.SizeInMiB` | Logger.cs:226-228 | from 1 MiB to below 1 GiB the integer model prints the MiB count and KiB remainder, dropping the bytes below 1 KiB; this matches the source below 2^24 bytes only |
| `Logger.SizeInGiB` | Logger.cs:229-231 | from 1 GiB up the integer model prints the GiB count and MiB remainder, dropping everything below 1 MiB; the source's float path can differ here |
| `Logger.SizeTextStartsWithDigit` | Logger.cs:217-232 | every size text is non-empty and starts with a digit |
| `Logger.Pad2Field` | Logger.cs:117-118 | a two-digit field has length 2, reads back as its value, and starts with '0' exactly when the value is below 10 |
| `Logger.Pad3Field` | Logger.cs:119 | the millisecond field has length 3 and reads back as its value; it starts with "00" exactly below 10 and with a single '0' exactly from 10 to 99 |
| `Logger.TimeStringLayout` | Logger.cs:114-120 | `TimeString` is "[hh:mm:ss.mmm] ": 15 characters, fixed separators, and each field reads back as its component |
| `Logger.LongTimeStringLayout` | Logger.cs:125-133 | with a four-digit year, `LongTimeString` is "YYYY-MM-DD_hh.mm.ss.mmm": 23 characters, fixed separators, and each field reads back as its component |
| `Logger.InfoPrefixesClash` | Logger.cs:171-184 | no present-tense prefix is an initial part of another, so an announcement names its reason unambiguously |
| `Logger.SuccessPrefixesClash` | Logger.cs:195-208 | the same holds for the past-tense prefixes |
| `Logger.InfoReasonDistinguishes` | Logger.cs:169-186 | equal `InfoReason` messages have the same reason and, for the same file, agree on whether a size or "folder" was printed |
| `Logger.SuccessReasonDistinguishes` | Logger.cs:193-210 | equal `SuccessReason` messages have the same reason and, for the same file, agree on whether a size or "folder" was printed |
| `Logger.DetailDiffers` | Logger.cs:185 | a file's message differs from the message for the same path printed as a folder |
| `Logger.TensesClash` | Logger.cs:173-206 | a present-tense prefix never starts like a past-tense one |
| `Logger.InfoNeverSuccess` | Logger.cs:169-210 | an announcement is never the same text as a confirmation |
| `Logger.ProgressBar` | Logger.cs:143-157 | the line is "[", one full cell per percent, one empty cell for each percent left up to 100, then "] ", the percent, the two sizes and the two counts |
| `Logger.ProgressBarCells` | Logger.cs:145-153 | for a percent p from 0 to 100 the bar holds exactly 100 cells, and cell k is full exactly when k < p |
| `CommandLine.Arguments.constructor` | Arguments.cs:5-15 | a new object holds the defaults: path "", algorithm "SHA3-512", extensions "all", threads 4, every flag false except allExtensions, errors 0 |
| `CommandLine.Arguments.Parse` | Arguments.cs:26-134 | the new state is `Parsed` of the old state and the tokens: each token is scanned in order, then a missing path adds an error |
| `CommandLine.Arguments.Switch` | Arguments.cs:34-130 | one case of the option switch changes the object as `Apply` says and nothing else |
| `CommandLine.Arguments.SetText` | Arguments.cs:35-56 | `-p`, `-a`, `-e` and `-c` store the next token, and `-e` also sets allExtensions to whether that token is "all" |
| `CommandLine.Arguments.SetThreads` | Arguments.cs:48-52 | `-t` parses the next token into threads, storing 0 and adding one error when it does not parse |
| `CommandLine.Arguments.SetDelay` | Arguments.cs:57-84 | `-d` stores the delay and adds the error count that `DelayValue` gives for the next token, and sets repeat |
| `CommandLine.ParseDelay` | Arguments.cs:59-82 | the `-d` case computes exactly the new delay and the added error count that `DelayValue` gives |
| `CommandLine.KnownOptionsStartWithDash` | Arguments.cs:33-126 | every token the switch recognises starts with '-' |
| `CommandLine.ParseWithoutArguments` | Arguments.cs:27-31 | with no tokens errors becomes 255 and every other field keeps its value |
| `CommandLine.ScanErrorsBounded` | Arguments.cs:32-132 | scanning n tokens adds between 0 and n errors |
| `CommandLine.MissingPathIsAnError` | Arguments.cs:133 | a fresh object whose parse leaves the path empty reports at least one error |
| `CommandLine.ValueUntouched` | Arguments.cs:35-56 | a stored value whose option never appears keeps its initial value |
| `CommandLine.LastWriteWins` | Arguments.cs:35-56 | a stored value holds the token after the last occurrence of its option |
| `CommandLine.FlagsAccumulate` | Arguments.cs:83-123 | repeat, log and help end up set exactly when they started set or `-d`, `-l` or `-h` occurs |
| `CommandLine.AllExtensionsTracksValue` | Arguments.cs:43-47 | every scan keeps allExtensions equal to whether extensions is "all" |
| `CommandLine.ParsedAllExtensions` | Arguments.cs:8-13 | after any parse of a fresh object, allExtensions is true exactly when extensions is "all" |
| `CommandLine.DelayPlainNumber` | Arguments.cs:80-82 | a plain integer delay is stored as seconds, without error |
| `CommandLine.DelayWithUnit` | Arguments.cs:60-74 | an integer followed by 's', 'm' or 'h' is stored multiplied by 1, 60 or 3600 (wrapped to Int32), exactly so when the product fits, without error |
| `CommandLine.DelayUnknownUnit` | Arguments.cs:75-77 | any other trailing non-digit adds one error and leaves the delay unchanged |
| `CommandLine.DelayNeedsDigit` | Arguments.cs:60-82 | a delay value without a digit always adds one error |
| `CommandLine.ThreadsTakesAnyInt16` | Arguments.cs:48-52 | `-t` stores any Int16 as given, with no clamp to 1..16 and no error |
| `CommandLine.ThreadsInvalid` | Arguments.cs:48-52 | a `-t` value that is not an Int16 adds one error and stores 0 |
| `CommandLine.ThreadsOutOfRange` | Arguments.cs:48-52 | a `-t` numeral outside the Int16 range, such as 40000, adds one error and stores 0 |
| `CommandLine.IgnoredTokens` | Arguments.cs:125-129 | a token without a leading '-', or "--", changes nothing, and an unknown option adds exactly one error |
| `Snapshots.PutLookup` | Program.cs:388 | after storing an entry, its key finds it and every other key finds what it found before |
| `Snapshots.PutKeys` | Program.cs:388 | storing keeps keys distinct: an existing key keeps its place, a new key is appended |
| `Snapshots.KeyOfChild` | Program.cs:387 | the key of root + separator + rel is rel |
| `Snapshots.BuiltKeys` | Program.cs:386-389 | the dictionary holds each distinct relative path once, in order of first appearance |
| `Snapshots.BuiltLookup` | Program.cs:386-389 | each key maps to the entry of the last item with that relative path |
| `Snapshots.BuildInfoDictionary` | Program.cs:382-397 | the loop fails exactly when some item is shorter than root plus separator; otherwise it returns the dictionary, with distinct keys, one per distinct relative path, each mapping to the last item with that path |
| `BackupPlan.CountsAddUp` | Program.cs:155-161 | folder count plus file count is the number of selected entries |
| `BackupPlan.SplitByKind` | Program.cs:173-181 | the file list and the folder list together are a permutation of the selected entries |
| `BackupPlan.SplitKinds` | Program.cs:173-181 | the file list holds only selected files and the folder list only selected folders |
| `BackupPlan.SplitCounts` | Program.cs:173-181 | each list's length is its kind's count; the file list's bytes are the selected bytes; folders add no bytes |
| `BackupPlan.SelectFromEntries` | Program.cs:151-153 | the selection has at most one item per entry, each taken from the dictionary walked |
| `BackupPlan.SelectToCopy` | Program.cs:150-163 | the selection is appended to toCopyList; the counters are its folder count, file count and file bytes, and folders plus files equal the number appended |
| `BackupPlan.SelectToRemove` | Program.cs:169-183 | files are appended to the file list and folders to the folder list; each count equals what was appended and sizeToRemove is the files' bytes |
| `Executor.OutcomesSplit` | Program.cs:193-229 | succeeded plus failed items account for every item, by number, folder count, file count and bytes |
| `Executor.CopyItems` | Program.cs:191-229 | every entry is attempted in order, whatever failed before. Done counters count the successes and to-do counters lose the failures, so done equals to-do whenever the plan counters match the list |
| `Executor.TryRemoveFile` | Program.cs:240-269 | with a removed-files folder, a removal fails only when both the direct move and the create-parent-then-move retry fail; without one, only when the delete fails |
| `Executor.RemoveFiles` | Program.cs:232-281 | each file is either counted in filesRemoved and sizeRemoved or subtracted from filesToRemove and sizeToRemove; done equals to-do when the plan matches the list |
| `Executor.TryRemoveFolder` | Program.cs:289-312 | with a removed-files folder, a folder removal succeeds only when the counterpart is created and the folder deleted; without one, when it is deleted |
| `Executor.Reversed` | Program.cs:285 | the reversal has the same length and holds element length-1-k at position k |
| `Executor.RemoveFolders` | Program.cs:284-319 | every index is visited once, from length-1 down to 0; foldersRemoved counts the successes and foldersToRemove loses the failures; no size counter exists to change |
| `BackupPass.RunPass` | Program.cs:129-326 | the pass exits with code 2 exactly when a dictionary cannot be built. Otherwise each loop's outcomes are its oracle's answers over the carried list followed by the new selection, folders in reverse. Done counters count the successes; to-do counters are the selection's counts minus the failures. The plan lines and the source's closing line are built from these counters, and all three lists are left empty. From empty lists every done counter ends equal to its to-do counter |
| `BackupPass.PlanLineOpensWithFolders` | Program.cs:164-166 | the line announcing a selection opens with its folder count, pluralised by that count |
| `BackupPass.CountPhrasePlural` | Program.cs:164-166 | a count of one takes the singular noun and every other count the plural |
| `BackupPass.DeltaSign` | Program.cs:326 | the delta starts with '+' exactly when at least as much was copied as removed |
| `BackupPass.SummaryOpensWithCopiedFolders` | Program.cs:322 | the corrected summary opens with the copied-folder count, pluralised by that count |
| `BackupPass.SummaryAsWrittenMiscounts` | Program.cs:322 | with one folder copied and none removed, the source's summary opens "1 folders" where the corrected one reads "1 folder " |
| `BackupPass.SummariesAgree` | Program.cs:322-326 | the source's closing line equals the corrected one exactly when the copied and removed folder counts are both 1 or both not 1 |
| `Schedule.SleepTime` | Program.cs:343 | the wait is an Int32; it equals the time left until the pass start plus the delay whenever that fits |
| `Schedule.SleepMillisOverflows` | Program.cs:346 | a wait of 2147484 seconds reaches Thread.Sleep as the negative -2147483296, while the corrected wait is 2147484000 ms |
| `Schedule.SleepMillisAgree` | Program.cs:346 | up to 2147483 seconds the source's product and the corrected one agree |
| `Schedule.SleepMillis` | Program.cs:346 | the corrected wait is positive whenever the sleep time is, and is exactly that many whole seconds in milliseconds |
| `Schedule.NextStartAsCorrected` | Program.cs:342-347 | when the time left is at most 2147483 seconds, the source's next start is the corrected one |
| `Schedule.NextStartWraps` | Program.cs:346 | with a delay of 4320000 s and an instant pass the source sleeps only 25032 s, and with a delay of 2147484 s Thread.Sleep throws; the corrected wait gives the full delay in both cases |
| `Schedule.NextStartNeverEarly` | Program.cs:342-347 | a pass is never followed before it has finished, in the source and in the corrected version |
| `Schedule.NextStartOnTime` | Program.cs:342-347 | when the time left is at most 2147483 seconds, the source starts the next pass when it is due, or as soon as the current one ends if that is later |
| `Schedule.NextStartCorrectedOnTime` | Program.cs:342-347 | with the corrected wait the same holds for every time left that fits an Int32 |
| `Schedule.Passes` | Program.cs:129-349 | without repeat there is exactly one pass. With repeat there is one pass per given duration, each following the previous as the source's `NextStart` says, unless Thread.Sleep throws, and then that is what stopped the loop |
| `Schedule.DriftFree` | Program.cs:129-347 | when the delay is at most 2147483 seconds and every pass fits in it, pass k starts exactly k delays after the first |
| `Schedule.NeverStops` | Program.cs:342-347 | under the same bounds no wait makes Thread.Sleep throw |

## Left out

- Filesystem I/O is not modelled. This covers tree enumeration, existence checks, folder creation at start-up, the extension-list file, `File.Copy`, `File.Move`, `File.Delete`, `Directory.Delete` and the compressed zip backup. Each operation is an oracle outcome, or is absent where no outcome feeds a counter.
- The parallel `Task.Run`/`await` scans are modelled as sequential, because they are independent and each is awaited before its result is used.
- `Environment.Exit` is modelled as the result `Exited(code)`. Only code 2 is produced, when `Substring` throws in `buildInfoDictionary`. Code 1 comes from an enumeration failure, which the model does not enumerate.
- `DirectoryEntry.ToCopy` and `ToRemove` are not part of this model. They are `Decision` parameters, and the diff rules they apply are not invented.
- `DirectoryEntry` is reduced to a full name, a folder bit and a length. `FileInfo` attributes other than the folder bit are not represented.
- Files.cs (the hash stub) and ElementLog.cs are not part of this model.
- These operations are not modelled because they drive the console and the log file:
  - console colours, cursor movement and `RemoveLine`;
  - `Info`, `Success` and `Error`;
  - the log stream kept by `InitializeLogging`, `ReinitializeLogging` and `TerminateLogging`;
  - gzip `Compress`.

  The text built for them is modelled as strings.
- `DateTime.Now` and `DateTimeOffset.ToUnixTimeSeconds` are not modelled. The date/time components and the clock readings are parameters.
- `Thread.Sleep` is assumed to wait exactly the requested number of seconds.
- `Schedule.Passes`: the source loop runs forever when repeating. The model runs one pass per given duration, so it covers every finite prefix of that run.
- `Schedule.Passes`: the model assumes no time passes between the end of a pass and its clock reading after the wait. It also does not model the Int64 arithmetic that computes the timestamp.
- The help text and the `-f` script save are not modelled, because they only write to the console or a file. `-f` and `-h` remain switch cases: `-h` sets help and `-f` changes nothing the model tracks.
- `Apply`, `Step` and `Arguments.Parse`: `args[i][0]` on an empty token and `args[i + 1]` after a trailing option throw in the source. `WellFormed` excludes both. It also excludes more than 32767 tokens, because the `(Int16)args.Length` cast wraps there: 65536 tokens read as a length of 0, which gives errors 255.
- `CommandLine.Arguments.Parse`: errors is an unbounded integer. The source's Int16 counter wraps past 32767, which takes about 32767 bad tokens.
- `CommandLine.DelayValue`: `char.IsNumber` is modelled as an ASCII digit test. The source also accepts other Unicode numeric characters as a final digit.
- `Numerics.TryParse`: the model uses the invariant culture. It does not model culture-specific signs or Unicode digits.
- The `Arguments` class models the integrity variant of the source. The fields the pass reads (source, destination, removed folder, time, backup flag) are parameters of `RunPass` and `Passes`, and are not taken from a parsed `Arguments`.
- `Logger.HumanReadableSize`, `Logger.SizeInMiB`, `Logger.SizeInGiB`: these use integer division. In the source the MiB and GiB branches go through single-precision `float`, which rounds above 2^24. The `UInt16` cast of the GiB count, which wraps above 64 TiB, is not modelled.
- `Logger.ProgressBar`: the model takes the percent as an input. The source computes it in `float`, which gives NaN when the total size is 0; that computation is not modelled.
- `Executor.CopyItems`: the counters are unbounded integers. The Int32 counts and the UInt64 sizes would only overflow beyond 2^31 items or 2^64 bytes.
- `Executor.CopyItems`: the `try`/`catch` around `sizeToCopy -= fileSize` never fires, because the code runs in C#'s default unchecked context, where a UInt64 subtraction wraps instead of throwing. The model's counters are unbounded. When the plan counters match the list, the final `sizeToCopy` equals `sizeCopied`. The model does not prove that it stays non-negative part-way through the loop.
- `Executor.RemoveFiles`: the same applies to `sizeToRemove -= fileSize`.
- `Executor.CopyItems`: the model assumes the logging calls never throw. In the copy loop `RemoveLine` and `SuccessReason` run inside the `try`, after the done counter is incremented. If one of them threw, the `catch` would also decrement the to-do counter. That item would count as both done and failed, so done would no longer equal to-do.
- `BackupPass.Delta`: the magnitude is computed exactly. The source goes through a signed Int64 difference and `Math.Abs`, which is exact for any pair of sizes below 2^63.
- `BackupPass.RunPass`: it returns the outcomes, the counters, the two plan lines and the closing line of the pass. The individual `InfoReason`, `SuccessReason` and `ProgressBar` lines it would log are not listed.
- `BackupPass.RunPass`: the model does not state that copying happens before removal. The loops act on independent oracles, so their order is not observable in the model.
- `Schedule.NextStart`: a wrapped positive wait sleeps a number of milliseconds that need not be whole seconds. It is counted in whole seconds, and the fraction is dropped.

## Findings

| source | as written | input that shows it | evidently intended | confidence | as-written member | corrected member |
|---|---|---|---|---|---|---|
| Program.cs:322 | the plural of the copied-folder count depends on `foldersRemoved == 1` | one folder copied, none removed: the summary opens "1 folders" | pluralise by `foldersCopied`, like the other three counts | high (not executed) | `BackupPass.SummaryAsWritten`, shown by `BackupPass.SummaryAsWrittenMiscounts` | `BackupPass.Summary`, with `BackupPass.SummaryOpensWithCopiedFolders` and `BackupPass.CountPhrasePlural` |
| Program.cs:346 | `Thread.Sleep(sleepTime * 1000)` multiplies in unchecked Int32 | a delay of 2147484 s (about 24.9 days) with an instant pass: 2147484 * 1000 wraps to -2147483296, which `Thread.Sleep` rejects. A delay of 4320000 s wraps to a positive 25032704 ms, a sleep of about 7 hours | sleep the full sleep time, e.g. through a TimeSpan or a 64-bit product | medium (not executed) | `Schedule.SleepMillisAsWritten`, shown by `Schedule.SleepMillisOverflows` | `Schedule.SleepMillis` and `Schedule.NextStartCorrected`, with `Schedule.NextStartCorrectedOnTime`; `Schedule.NextStartAsCorrected` shows where the two agree |
