# Flight-data recorder: a verified model

A Dafny model of the flight-data recorder daemon: the compaction of its window directories, the
collection and storage of device dumps, the rate limiter, the running statistics, on-change
logging, the book of errors, and the framing of the outcome files. Every callback of the daemon
runs on one event-loop thread, so each component is a sequence of atomic steps over a state and an
abstract file system. Code that updates fields, files or containers in loops is modelled by classes
and methods with the same fields, branches and loops; each method is proved to compute a
specification function of the old state, and the main results are lemmas about those functions
over every input and every run.

`dafny verify dfyconfig.toml` checks the whole project.

## Layout

| file | models |
|---|---|
| `Text.dfy` | decimal printing and C++ integer parsing, `split`, directory names |
| `Reals.dfy` | the sign of a product |
| `RecordFile.dfy` | what `FDRStore` makes of a file: readable records, then perhaps unreadable bytes |
| `BookOfErrors.dfy` | the deduplicated error log |
| `Compactor.dfy` | the compactor: bookkeeper, error selection, high-fidelity files, engine, drain, window expiry |
| `CompactorRecovery.dfy` | closed forms of compaction, single file operations, crashes, restarts, the boot-time drain |
| `CompactorRun.dfy` | whole runs from one boot: what is kept, what the bookkeeper holds, what a restart costs |
| `LeakyBucket.dfy` | the rate limiter against a bucket that really drips, and its rate bound |
| `RunningStats.dfy` | the streaming statistics against a summary of the samples, and the partition of the stream |
| `ChangeLog.dfy` | the storage policies of a record and what an on-change log still tells |
| `Writers.dfy` | the rotation of sample writers after a window expiry |
| `Framing.dfy` | varint-framed append-only files, writer and reader |
| `DumpPaths.dfy` | printing and parsing the paths of dump files; which paths name one file |
| `DumpStore.dfy` | the dump store: write, eviction, rebuild at startup; files are known by plain path, index entries as spelled |
| `DumpHistory.dfy` | runs of the store from what a restart left: longest suffix that fits, the partition budget |
| `DumpRestart.dfy` | the rebuilt index against the one the running store held; runs and restarts in turn |
| `DumpHandler.dfy` | the collection state machine, window expiries included |
| `DumpCases.dfy` | the steps of the state machine case by case, told by the state alone |
| `DumpOutcomes.dfy` | conservation of outcomes and the two outcome files |
| `DumpLifetime.dfy` | how long a collection lasts; the width of the backoff |
| `DumpSafety.dfy` | descriptors and temporary files between two restarts |
| `DumpDebounce.dfy` | separation of collections by the debounce window |
| `DumpEndToEnd.dfy` | handler and store together: every run, then a restart |
| `DumpLives.dfy` | lives of the daemon: runs with restarts in between, collections in flight or not |

## Where the obvious claim is false

In each case the model follows the code, and the exact condition under which the claim holds is
proved.

- *Every sample near an error is kept.* Of the samples taken in the nominal window, only if the
  preserve time is shorter than the time between two expiries: otherwise an error logged right after
  the compaction still reaches a sample that is already deleted
  (`ExactIffPreserveTimeShorterThanGap`, `LateErrorBreaksExactness`). A sample taken behind the end of
  the nominal window, as in the first window of a boot, which outlives it, is decided by the errors
  near that window alone, and lost however near another error is (`RunStaysFated`,
  `LateSampleIsLost`). A directory stamped less than the preserve time after the epoch wraps the
  unsigned subtraction and keeps nothing (`EarlyStampSelectsNothing`).
- *A restart keeps what a run keeps.* A restart within one boot of the board drains the live window
  at once; no configuration saves its samples from an error logged right after
  (`RestartBreaksExactness`).
- *Compaction builds every high-fidelity file.* A corrupt sample file ends the work for the files
  listed after it, and all raw samples are deleted regardless (`BuiltIffNothingTornBefore`).
- *Restarting after a crash ends as without one.* If and only if no error is selected or no file beside
  a corrupt one has anything to keep or a high-fidelity file already, which readable files ensure
  (`CrashesConvergeIff`).
- *The drain compacts what was left.* If and only if the last boot event of the window's boot not after
  its stamp, in a readable file, has the format of the day (`DrainCompactsIff`). The first window
  of a boot is stamped before its boot event is written (`fdr.cpp:137-140`), so it can be left without
  one. A torn bookkeeper has only its first entry handled; the rest is dropped uncompacted
  (`DrainHandles`).
- *The drain ends.* Only if copying the rewritten bookkeeper back succeeds often enough
  (`DrainEndsIff`); failures only delay it (`FailuresOnlyDelay`).
- *The limiter is a dripping bucket, and keeps its rate.* Only if 1,000,000 over the rate is a whole
  number, so that one unit takes a whole number of microseconds; otherwise the truncation lets requests in faster for ever (`NewBucketRefinesIff`,
  `KeepsRateIff`). The message at `fdr.cpp:182-184` calls the limiter disabled for negative rates, but
  the code builds one, which then limits nothing (`NegativeRateNeverLimits`).
- *Statistics summarise the samples.* A time of zero doubles as "no sample yet": the next sample is
  summarised too if and only if the first time and those of the extremes are positive
  (`SummaryGoesOnIff`). Integers of other types than Uint64 count as zero (`ReadingIsValueIff`).
- *On-change logs are lossless.* Call by call, read as the accessors read, only for values in the field
  that the comparison reads (`LosslessIff`). Read by time, only if no second holds two different values,
  since stamps are whole seconds (`ReadsBackIff`).
- *Records rotate to new writers.* Only if the joined section, component and info-group name is
  unambiguous (`AllRotatedIff`, `KeysCollide`).
- *A frame can be read back.* Only if it parses and is below 2^32 bytes: the length is narrowed
  (`FrameRoundTrip`).
- *A restart finds what was stored.* If and only if the base path is not empty, no component is listed
  twice and no file name prefix extends another (`RestartsAgreeIff`). A base path that ends in a slash
  only has files listed under other spellings (`ListedIsStored`). The order is kept only if the running
  queue was in time order: stores append in order of completion and stamp with the time of the event
  (`RestartAgreesIff`).
- *Every profile keeps its budget.* A restart evicts nothing, so only if it was stored to since or
  started within it (`ProfileWithinBudgetIff`).
- *Validated budgets leave headroom.* Only if the sum of the budgets does not wrap in `size_t`
  (`ValidatedBudgetsLeaveHeadroom`, `LimitHoldsIffBudgetsFit`, `WrappedSumPasses`).
- *Profile and component tell collections apart.* Only as long as no profile name holds a colon
  (`KeysTellDevices`, `ColonsCollide`).
- *A SUCCESS row names a file on disk.* Only if the dump fits its budget by itself
  (`SuccessRowHasFileIff`).
- *Each collection has one outcome.* Except when the completion throws behind its SUCCESS row
  (`OneOutcomeEachIff`) or a restart drops it without a row (`LivesConserveOutcomes`). A success whose
  completion throws is also unknown to the debounce, which then lets a collection start inside the window
  (`SeparatedIff`, `LateThrowLetsStart`), and a restart forgets them all (`RestartForgetsSuccesses`).
- *No temporary file outlives its collection.* In two ways only (`LiveTempsIff`). A window expiry changes
  the directory dumps are stored in, and a serialisation that fails in a directory other than the one its
  collection was opened in leaves its file behind (`NoTempLeaksIff`, `RotationLeaks`). A restart leaves
  those of the collections in flight, the recovery scan being a stub (`RestartLeaves`).

## Assumptions about the environment

Appends, copies, renames and deletes are single steps and, where no input says otherwise, succeed.
`directory_iterator` reports the entries of a directory in some order, once each. `open(2)` does not
hand out a descriptor that is in use. Slashes in a row in a path count as one; links are not followed.
Clock reads, D-Bus replies, file reads, disk-space checks, window expiries and exceptions during a
completion are inputs of the steps, without restriction unless a contract states one.

The runs of `CompactorRun` ask for a clock that does not go back, samples that carry a time already
past, windows that open in different seconds, and times clear of the 64-bit wrap; the time between
expiries is a parameter. The bookkeeper results there ask for different seconds only. The results on
restarts of the dump store ask that every file named like a dump comes from its own stores (`OnlyOurs`),
and those of `DumpLives` for a clock that does not go back and timers that first tick in a later second
than they were set in (`Clocked`).

## Model

| member | source | states |
|---|---|---|
| Text.NatTextRoundTrip | fdr_common.hpp:106-111 | the decimal text of a stamp is digits only and denotes the stamp |
| Text.NatTextInjective | fdr_common.hpp:106-111 | different stamps have different texts |
| Text.StollOfPrinted | fdr_device_dump_store.cpp:322-350 | parsing a printed 64-bit time gives it back, negative times included |
| Text.UnsignedOfPrinted | fdr_compact.cpp:338-381 | both unsigned parsers read a printed 64-bit stamp exactly and to its end |
| Text.ParsersRead | fdr_common.cpp:108-131 | for any text, what std::stoull, std::stoll and std::strtoull make of its blanks, sign, digits and rest: the number, a throw, zero or the largest number, and a minus that wraps |
| Text.TextsSplit | fdr_common.cpp:108-131 | every string has such blanks, sign, digits and rest |
| Text.ContainsIff | fdr_device_dump.cpp:335-337 | a search finds exactly the texts that hold the other one at some position |
| Text.Split | fdr_common.cpp:161-185 | the character loop returns the parts between delimiters |
| Text.SplitUndoesJoin | fdr_common.cpp:161-185 | splitting what was joined from delimiter-free parts returns the parts in order |
| Text.DirectoryNameFields | fdr_compact.cpp:343-351 | the name of a window directory splits into four fields, the second the boot and the fourth the stamp |
| Text.DirectoryNameInjective | fdr_common.hpp:106-111 | directories of one boot with different stamps have different names |
| Framing.FrameLog.Append | fdr_device_dump.cpp:782-791 | the byte loop appends exactly the length varint, narrowed to 32 bits, and the message |
| Framing.LogReader.DecodeVarint32 | fdrtool/catalog/catalog.py:416-424 | the loop computes the varint at a position, or the error the runtime raises |
| Framing.LogReader.DecodeLengthDelimited | fdrtool/catalog/catalog.py:416-443 | the messages handed on before anything raises, a message that does not parse included, and whether the buffer was read to its end, are those of the specification |
| Framing.PrefixSize | fdr_device_dump.cpp:782-791 | every length prefix takes one to five bytes |
| Framing.VarintDenotes | fdr_device_dump.cpp:782-791 | the prefix written is the shortest one: seven bits a byte, the lowest first, the high bit on all but the last, denoting the length |
| Framing.VarintReads | fdrtool/catalog/catalog.py:416-424 | any varint, the shortest or not, reads as what it denotes modulo 2^32; the end of the buffer inside it and ten bytes without an end raise |
| Framing.TornFrameDecodes | fdrtool/catalog/catalog.py:416-443 | a frame cut off inside its length raises; cut off inside its message, what there is of the message is taken for it if it parses |
| Framing.AppendKeepsEarlierFrames | fdrtool/catalog/catalog.py:416-424 | bytes appended behind whole frames, torn frames included, never change how the earlier frames decode, nor at which of them the decoding stops |
| Framing.FrameRoundTrip | fdr_device_dump.cpp:882-892 | decoding the frames of a list returns the list if and only if every message parses and is shorter than 2^32 bytes |
| Framing.WrittenFilesAreWhole | fdr_device_dump.cpp:882-892 | a file written frame by frame consists of whole frames |
| LeakyBucket.Limiter.Add | fdr_common.cpp:247-277 | the admitted amount and the new instant are those of the bucket |
| LeakyBucket.Limiter.Count | fdr_common.cpp:221-240 | the level read at a time |
| LeakyBucket.Limiter.IsFull | fdr_common.cpp:242-245 | full if and only if the level has reached the capacity |
| LeakyBucket.LevelByRate | fdr_common.cpp:221-240 | for every rate, whatever its sign, the level read is the time left times the rate per 1,000,000 microseconds, rounded up |
| LeakyBucket.TimeAddedByRate | fdr_common.cpp:247-277 | for every rate and amount, whatever their signs, a request adds the time its units take at the rate, the fraction of a microsecond cut off |
| LeakyBucket.EmptyIff | fdr_common.cpp:207-277 | an empty bucket that gets n units reads empty again from exactly the microsecond in which n units have left at the rate, the fraction cut off |
| LeakyBucket.BucketRefinesDripping | fdr_common.cpp:207-277 | with whole microseconds per drip, one stored instant lets in the same units and reads the same level, at every microsecond and after every request, as a bucket that drips unit by unit |
| LeakyBucket.PartDripsDiffer | fdr_common.cpp:247-277 | otherwise one request and a pause tell the two apart |
| LeakyBucket.NewBucketRefinesIff | fdr_common.cpp:207-277 | a new limiter reads as a bucket that loses one unit after the other, as many in 1,000,000 microseconds as its rate says, over every sequence of events if and only if one unit takes a whole number of microseconds |
| LeakyBucket.AddStaysWithinRoom | fdr_common.cpp:247-277 | one request: the backlog grows by exactly the truncated cost of what got in and never past a full bucket |
| LeakyBucket.CountNeverExceedsCapacity | fdr_common.cpp:221-240 | after any calls, at any later time, the level is at most the capacity |
| LeakyBucket.WindowBound | fdr_common.cpp:247-277 | between any two calls of any call sequence, the truncated cost of what got in is at most a full bucket plus the time that passed, for every positive rate |
| LeakyBucket.KeepsRateIff | fdr_common.cpp:247-277 | every window of every call sequence admits at most the capacity and the rate times its length per 1,000,000 microseconds if and only if one unit takes a whole number of microseconds |
| LeakyBucket.NegativeRateNeverLimits | fdr.cpp:168-186 | with a negative rate every request gets in up to the capacity, however soon it follows |
| RunningStats.StatRecord.RunningStatisticEngine | fdr_record.cpp:429-487 | one more sample, read by its type from one field or the other, updates the running state as specified |
| RunningStats.StatRecord.AppendRunningStat | fdr_record.cpp:489-523 | a stat row with the rounded mean is appended, and the state cleared, exactly when samples are pending |
| RunningStats.StatRecord.WindowExpiry | fdr_compact.cpp:129-176 | the pending stat goes to the old directory before the record moves to the new one |
| RunningStats.RoundAwayIsNearest | fdr_record.cpp:439-440 | rounding gives the one integer that is at most a half away, and of two the one away from zero |
| RunningStats.MeanIsRounded | fdr_record.cpp:489-523 | twice the count times the mean is within the count of twice the sum, halves away from zero, for sums of either sign |
| RunningStats.EngineSummarises | fdr_record.cpp:429-487 | as long as those times are positive the running state is the count, sum, minimum, maximum, latest extremal times, first and last time of everything fed |
| RunningStats.SummaryGoesOnIff | fdr_record.cpp:429-487 | behind any stream summarised so far, every next sample is summarised too if and only if the first time and the times of the minimum and maximum are positive |
| RunningStats.ReadingIsValueIff | fdr_record.cpp:429-441 | the statistics read the values fetched, in thousandths to the nearest and halves away from zero, if and only if integers are typed Uint64 and doubles are not; all others read as zero |
| RunningStats.MeanWithinRange | fdr_record.cpp:489-523 | the rounded mean of a written row lies between its minimum and maximum |
| RunningStats.RowsPartitionStream | fdr_compact.cpp:285-333 | over any run the rows cut the stream into consecutive parts, each summarised by its row with the mean to the nearest thousandth, in the directory live when its samples arrived |
| RunningStats.CountsConserved | fdr_compact.cpp:129-176 | the counts flushed plus the running count are the samples fed |
| ChangeLog.FirstCall.SameDataValues | fdr_record.cpp:525-548 | what the comparison with its static flag answers |
| ChangeLog.Record.Store | fdr_record.cpp:578-621 | the three policies: what is logged, and the new times |
| ChangeLog.StoresKeepPeriod | fdr_record.cpp:578-621 | over every sequence of calls, a periodic record appends its data in exactly the calls that come StoreFreqSecs or more after the store before, a record that stores every fetch in those whose fetch comes FetchFreqSecs or more after it, and a record of any unknown policy in all |
| ChangeLog.UnsetReadsAsDefault | fdr_record.cpp:525-548 | a field never set reads as zero or the empty string: fetched so next, it is no change |
| ChangeLog.WatchStaysSettled | fdr_record.cpp:578-621 | for a comparable record, after any calls at any times, refreshed or not, fetched or not, no entry repeats the one before and the log ends in the value offered last |
| ChangeLog.IndistinctValuesAreLost | fdr_record.cpp:539-548 | for any other record there are calls of which a value is lost |
| ChangeLog.LosslessIff | fdr_record.cpp:525-548 | over every sequence of calls, fetches that fail included, no two adjacent entries read alike and after each the log ends in the value offered, if and only if the comparison reads the field the values are in |
| ChangeLog.ReadsBackIff | fdr_record.cpp:578-621 | read as a step function of time the log gives back every value offered if and only if no second holds two different ones |
| BookOfErrors.ErrorBook.CompareMessageWithLog | fdr_bookoferrors.cpp:22-80 | found if and only if a readable record has the key; unreadable bytes reached by the scan delete the file |
| BookOfErrors.ErrorBook.SetBookOfErrorsRecord | fdr_bookoferrors.cpp:82-99 | the file after one reported error |
| BookOfErrors.LogIsFirstOccurrences | fdr_bookoferrors.cpp:22-99 | for every stream of reports the file is the subsequence of first occurrences by boot, device, parameter and type, in order |
| BookOfErrors.KeysStayDistinct | fdr_bookoferrors.cpp:22-99 | the keys in the file are pairwise distinct |
| BookOfErrors.SameKeysKept | fdr_bookoferrors.cpp:22-99 | a key is in the file if and only if some report had it |
| BookOfErrors.LogTellsKeys | fdr_bookoferrors.cpp:22-99 | over every stream of reports the log holds reports only, no boot, device, parameter and error type twice, and each of those reported |
| BookOfErrors.TornLogStartsOver | fdr_bookoferrors.cpp:70-99 | a log with unreadable bytes is replaced by the error reported, unless one with the same boot, device, parameter and type can still be read |
| Compactor.Recorder.CheckBookOfErrors | fdr_compact.cpp:23-127 | the scan of the error log selects the specified ranges and deletes a corrupt log |
| Compactor.Recorder.CreateOneHifi | fdr_compact.cpp:384-488 | one high-fidelity file is rebuilt from scratch with the samples in some range, in order |
| Compactor.Recorder.CreateHighFidelityFiles | fdr_compact.cpp:384-488 | the files of a directory in listing order, up to the first corrupt one |
| Compactor.Recorder.RemoveSamplesLogfiles | fdr_compact.cpp:492-532 | all raw samples of the directory and nothing else are deleted |
| Compactor.Recorder.AppendEntry | fdr_compact.cpp:536-541 | the live directory is appended to the bookkeeper |
| Compactor.Recorder.BookKeeperRemoveEntry | fdr_compact.cpp:544-669 | what is left of the bookkeeper for a match, no match, a corrupt record and a failed copy |
| Compactor.Recorder.GetItsDataFormat | fdr_compact.cpp:674-749 | the format of the last boot event of the directory's boot not after its stamp, or zero |
| Compactor.Recorder.DirectoryToCompact | fdr_compact.cpp:833-892 | the first entry if enough entries can be read, and the entries counted |
| Compactor.Recorder.CompactorEngine | fdr_compact.cpp:896-937 | selection, high-fidelity files, deletion and bookkeeper rewrite in this order |
| Compactor.Recorder.CleanEntries | fdr_compact.cpp:757-828 | the boot-time loop computes the rounds of the drain, copies that fail included, and tells whether it ended |
| Compactor.Recorder.CheckCompactionWindowExpiry | fdr_compact.cpp:179-246 | when a window expires, and that one of two entries is compacted then |
| Compactor.Recorder.Compact | fdr_compact.cpp:129-176 | an expiry compacts and then opens the next window |
| Compactor.RemoveFirst | fdr_compact.cpp:581-610 | asked for the first entry's name, the rewrite removes exactly one entry of a readable bookkeeper |
| CompactorRecovery.RemovesThrough | fdr_compact.cpp:581-669 | removing an entry removes all before it too, and of an entry that is not there the whole bookkeeper |
| CompactorRecovery.BoundsOfName | fdr_compact.cpp:338-381 | for any directory name, the lower bound is the number in its fourth field and the upper bound the window behind that, or zero if more stands in the field; without four fields both are zero |
| CompactorRecovery.OpeningKeepsFiles | fdr_compact.cpp:536-541 | opening a window, also one whose directory exists, leaves all files alone |
| CompactorRecovery.TornKeeperIsDropped | fdr_compact.cpp:179-246 | a window opened on a bookkeeper with unreadable bytes is not entered; the expiry after it compacts the first of at least two readable entries and ends without a bookkeeper |
| CompactorRecovery.CreateHifiClosed | fdr_compact.cpp:384-488 | where nothing beside a corrupt file is to be kept, exactly the listed stems are rebuilt, independent of each other |
| CompactorRecovery.CompactDirClosed | fdr_compact.cpp:896-937 | the compacted directory does not depend on the order of the listing |
| CompactorRecovery.BuiltIffNothingTornBefore | fdr_compact.cpp:384-488 | a file of the listing is built if and only if no corrupt file comes before it, and its samples are deleted either way |
| CompactorRecovery.CrashesConvergeIff | fdr_compact.cpp:384-488 | all listing orders and all ways of being interrupted lead to one end if and only if no error is selected or no file beside a corrupt one has anything to keep or a high-fidelity file already |
| CompactorRecovery.AllOpsCompact | fdr_compact.cpp:384-532 | the single file operations of the engine, all carried out, are the compaction, corrupt files included |
| CompactorRecovery.PrefixIsOnTheWay | fdr_compact.cpp:384-532 | stopped after any number of operations, only files still to be rebuilt differ or all are final |
| CompactorRecovery.OneCrashConverges | fdr_compact.cpp:896-937 | one interrupted run followed by a whole one equals a whole one |
| CompactorRecovery.CrashesConverge | fdr_compact.cpp:896-937 | the same after any number of interrupted runs and restarts, each with its own listing orders, stopping point and boot event |
| CompactorRecovery.RebootConverges | fdr_compact.cpp:757-828 | with a matching format, the drain of the interrupted disk ends as the drain of the disk on which the engine had finished |
| CompactorRecovery.RestartsKeepFormat | fdr_compact.cpp:674-749 | the boot events of restarts after a window was opened do not change the format looked up for it |
| CompactorRecovery.DrainHandles | fdr_compact.cpp:757-828 | for any bookkeeper contents the drain ends with no entry left, having handled every entry of a readable bookkeeper in order and only the first of a torn one |
| CompactorRecovery.LatestFormatAt | fdr_compact.cpp:674-749 | the format looked up is that of the last boot event of the boot not after the stamp |
| CompactorRecovery.DrainDecides | fdr_compact.cpp:757-828 | what the drain makes of its first entry, whatever its name: an empty one is taken off; one without four fields counts as format zero, and a stamp that is no 64-bit number as zero |
| CompactorRecovery.DrainCompactsIff | fdr_compact.cpp:757-828 | the drain compacts a window if and only if the last boot event of its boot not after its stamp, in a readable file, has the current format, none counting as format zero; otherwise it takes the entry off and leaves the files |
| CompactorRecovery.FailedRoundStalls | fdr_compact.cpp:612-669 | a round of the drain whose copy fails makes no progress, and the next goes as if it had not been |
| CompactorRecovery.FailuresOnlyDelay | fdr_compact.cpp:757-828 | however many copies fail in between, a drain that ends leaves what one without failures leaves |
| CompactorRecovery.DrainEndsIff | fdr_compact.cpp:757-828 | the drain of a readable bookkeeper ends if and only if all but its last entry are copied away and one more round is made |
| CompactorRun.KeptIff | fdr_compact.cpp:70-95 | the fate of every sample: the selected ranges hit it if and only if a logged error of the boot lies within the preserve time of it and within that of the nominal window |
| CompactorRun.FilterLosesNothing | fdr_compact.cpp:70-95 | for a sample of the nominal window the second half is no restriction |
| CompactorRun.PreserveIsKept | fdr_compact.cpp:384-488 | the samples kept are exactly the in-order subsequence so decided |
| CompactorRun.KeptInWindow | fdr_compact.cpp:384-488 | and of those in the window exactly the ones near a logged error |
| CompactorRun.EarlyStampSelectsNothing | fdr_compact.cpp:70-95 | with the subtraction wrapped, no error at all is selected |
| CompactorRun.UnreadableLogKeepsNothing | fdr_compact.cpp:19-95 | with an error log that is missing or has unreadable bytes, or a name without four fields, nothing of a directory is kept but older high-fidelity files, and an unreadable log is removed |
| CompactorRun.ExpiryOnDisk | fdr_compact.cpp:179-246 | what a window expiry does to the whole disk, the first and every later one |
| CompactorRun.LiveNeverCompacted | fdr_compact.cpp:833-892 | with the bookkeeper in order the live directory is the last of one or two entries, was never compacted, and no directory was compacted twice |
| CompactorRun.ExpireKeepsKeeper | fdr_compact.cpp:544-669 | an expiry into a later second keeps the bookkeeper in order and compacts every entry but the live one |
| CompactorRun.RunStaysSteady | fdr_compact.cpp:129-282 | in every reachable state the bookkeeper is in order, directories not compacted yet hold what was stored in them, and no sample is younger than its directory's closing |
| CompactorRun.RunStaysFated | fdr_compact.cpp:129-282 | with the expiries farther apart than the preserve time, in every reachable state every compacted directory holds exactly the samples decided by the log as it is now, for all samples, in their window or not |
| CompactorRun.LateErrorBreaksExactness | fdr_compact.cpp:129-282 | otherwise there is a run that loses a sample of the window to an error logged after its compaction |
| CompactorRun.ExactIffPreserveTimeShorterThanGap | fdr_compact.cpp:129-282 | preservation of the samples of the window holds over all runs if and only if the preserve time is shorter than the time between two expiries |
| CompactorRun.ExactIffPreserveTimeShorter | fdr_compact.cpp:179-246 | with the expiry check of the polling loop: if and only if it is shorter than the window |
| CompactorRun.LateSampleIsLost | fdr_compact.cpp:70-95 | whatever the configuration there is a run that loses a sample taken behind the nominal end of its window although an error lies within the preserve time |
| CompactorRun.RestartBreaksExactness | fdr.cpp:137-159 | whatever the configuration, a restart in the middle of a window loses a sample of it to an error logged right after |
| CompactorRun.BookkeeperOverRuns | fdr_compact.cpp:833-892 | over every run whose windows open in different seconds, each expiry after the first compacts exactly the entry before the live one, and the first compacts nothing |
| CompactorRun.ConstructorBoots | fdr.cpp:137-159 | whatever bookkeeper was left, the constructor ends in the start state of a run, with the live directory as only entry |
| CompactorRun.DrainKeepsNames | fdr_compact.cpp:757-828 | the drain neither creates nor removes directories, and leaves a readable error log alone |
| Writers.Recorder.ModifySpecificRecords | fdr.cpp:1118-1204 | the nested loops leave every record with the writers of the first policy record of its triple, none, or its old ones, as specified |
| Writers.Recorder.CreateSamplesWriter | fdr.cpp:525-572 | a fresh writer for the specified path |
| Writers.WriterFileName | fdr.cpp:539-551 | a writer lies right in the current directory below the base path, under a name of section, component, .Event_ for faults, and extension, if section and component hold no slash |
| Writers.NewWritersLieInDirectory | fdr.cpp:1150-1199 | the writers a record under the policy ends with lie so in the current directory, under different names; the log ends in .sensors.dat exactly if the info group holds Sensor., else in .others.dat |
| Writers.DirectoriesApart | fdr.cpp:539-551 | writers in two different directories have different paths |
| Writers.TriplesShareWriters | fdr.cpp:1187-1199 | a record under the policy that has writers shares both with every record of its triple, and they are in the current directory |
| Writers.OthersKeepWriters | fdr.cpp:1118-1204 | records of triples without the policy keep their writers |
| Writers.AllRotatedIff | fdr.cpp:1134-1199 | all records under the policy get writers in the current directory if and only if the joined key tells their triples apart |
| Writers.KeysCollide | fdr.cpp:1139-1141 | two triples whose joined keys agree |
| DumpPaths.ExtractOfPrinted | fdr_device_dump_store.cpp:322-350 | reading the timestamp of a printed name gives it back, for every profile, component, path before it and 64-bit time |
| DumpPaths.ExtractDecides | fdr_device_dump_store.cpp:322-350 | the time of any file name with an underscore before its last .dat is the number std::stoll reads between the last two of those, or zero |
| DumpPaths.ExtractOfOddName | fdr_device_dump_store.cpp:322-350 | a name without .dat or without an underscore has time zero |
| DumpPaths.ListedIsStored | fdr_device_dump_store.cpp:145-167 | the scan lists the file a dump was stored in for every base path, and spells it as the store did if and only if the base path ends in no slash |
| DumpPaths.FileDecides | fdr_device_dump_store.cpp:195-214 | the file of a dump tells its directory and its name, however often slashes are repeated |
| DumpStore.DeviceDumpStore.Store | fdr_device_dump_store.cpp:42-117 | index and files after a store, for every way the write can end |
| DumpStore.DeviceDumpStore.EnforceEviction | fdr_device_dump_store.cpp:220-256 | the loop computes the eviction, entries whose delete fails included |
| DumpStore.DeviceDumpStore.ComputeUsedBytes | fdr_device_dump_store.cpp:298-320 | the sum of the sizes of the queued files that exist |
| DumpStore.DeviceDumpStore.ScanComponent | fdr_device_dump_store.cpp:143-171 | the directory loops find the matching files in order |
| DumpStore.DeviceDumpStore.SortByTime | fdr_device_dump_store.cpp:179-188 | a sorted rearrangement of the queue |
| DumpStore.DeviceDumpStore.RebuildProfile | fdr_device_dump_store.cpp:123-190 | the queue becomes a sorted rearrangement of itself and what the scan finds |
| DumpStore.DeviceDumpStore.RebuildIndex | fdr_device_dump_store.cpp:119-193 | every profile's queue is a sorted rearrangement of what the scan finds for it |
| DumpHistory.EvictKeepsLongestSuffix | fdr_device_dump_store.cpp:220-256 | eviction keeps the longest suffix that fits and deletes the other files, except those that cannot be deleted, which stay behind without an entry |
| DumpHistory.FailedStoreLeaves | fdr_device_dump_store.cpp:42-107 | a store that fails changes neither index nor any file but its temporary one, and whether that stays is told for each failure |
| DumpHistory.BudgetBytesIff | fdr_device_dump_store.cpp:220-256 | the byte budget is 1,048,576 times BudgetMB if and only if that is below 2^44, and the remainder above |
| DumpHistory.StoreEffect | fdr_device_dump_store.cpp:109-116 | one store takes the longest suffix of the history to that of the longer history and removes exactly the evicted files |
| DumpHistory.RunKeepsLongestSuffix | fdr_device_dump_store.cpp:42-117 | from whatever a restart found, over budget or not, after any run of stores to distinct paths the queue of every profile stored to is the longest suffix of its history within the budget, the dumps found included, and exactly the queued dumps are on disk |
| DumpHistory.NewestSurvivesIffItFits | fdr_device_dump_store.cpp:242-252 | the newest dump is on disk and queued if and only if it fits the budget alone |
| DumpHistory.ValidateBudgets | fdr.cpp:1401-1429 | the startup loop compares the wrapped sum of the budgets with the allotment |
| DumpHistory.AllotmentFitsIff | fdr.cpp:1401-1429 | a sum passes if and only if it is zero or leaves the threshold free on the partition |
| DumpHistory.ProfileWithinBudgetIff | fdr_device_dump_store.cpp:220-256 | a profile is within its budget if and only if it was stored to since the restart or started within it |
| DumpHistory.DumpsWithinBudgets | fdr_device_dump_store.cpp:220-256 | then after any run the dumps of all profiles take at most the sum of the byte budgets |
| DumpHistory.ValidatedBudgetsLeaveHeadroom | fdr.cpp:1401-1429 | validated budgets whose sum does not wrap keep the dumps within partition capacity minus threshold over every run |
| DumpHistory.LimitHoldsIffBudgetsFit | fdr.cpp:1401-1429 | a limit is kept over all these runs if and only if the byte budgets add up to no more |
| DumpHistory.WrappedSumPasses | fdr.cpp:1401-1405 | two budgets whose wrapped sum is zero and whose byte budgets add up to 2^64 |
| DumpRestart.AttemptsKeepInStep | fdr_device_dump_store.cpp:42-117 | failed stores among successful ones do not disturb the longest suffixes |
| DumpRestart.AttemptsKeepTracks | fdr_device_dump_store.cpp:42-117 | after any stores exactly the queued dumps are on disk, each queued once, by its own profile, with its own time |
| DumpRestart.OnlyDatFilesAreIndexed | fdr_device_dump_store.cpp:155-166 | whatever is on disk, a rebuilt queue holds only .dat files, never a .tmp file |
| DumpRestart.ComponentsListed | fdr_device_dump_store.cpp:123-141 | the scan goes through the components of all sections of the name, and no others |
| DumpRestart.FilesListed | fdr_device_dump_store.cpp:143-174 | and through the files of all directories, and no others |
| DumpRestart.TakenForIff | fdr_device_dump_store.cpp:132-166 | the scan takes the dumps of one profile and component for those of another, whatever their times, if and only if the first's name prefix extends the other's |
| DumpRestart.RestartsAgreeIff | fdr_device_dump_store.cpp:119-193 | every restart finds exactly the queued dumps if and only if the base path is not empty, no component is listed twice and no prefix extends another |
| DumpRestart.EmptyBaseFindsNothing | fdr_device_dump_store.cpp:143-174 | with an empty base path the scan finds nothing |
| DumpRestart.RebuiltAgreesIff | fdr_device_dump_store.cpp:119-193 | for any disk and index in step with a history of stores, the rebuilt queue has the running queue's dumps; where no two of the profile share a second, it equals it if and only if that was in time order |
| DumpRestart.RestartAgreesIff | fdr_device_dump_store.cpp:119-193 | the same after any run of stores, failed ones among them, from any such state |
| DumpRestart.LivesStayInStep | fdr_device_dump_store.cpp:119-193 | over any number of boots, whatever the order of the stores, no dump is lost, invented or indexed twice |
| DumpRestart.RestartsAreInvisible | fdr_device_dump_store.cpp:119-193 | with each profile's stores in time order, queues and disk after any number of boots are those of one uninterrupted run |
| DumpRestart.RestartedIsDescribed | fdr_device_dump_store.cpp:119-193 | a restarted store has a history from which the longest-suffix results go on |
| DumpHandler.DeviceDumpHandler.OnEvent | fdr_device_dump.cpp:671-726 | the loop over the profiles computes the specified step |
| DumpHandler.DeviceDumpHandler.UpdateDirectory | fdr_compact.cpp:251-262 | a window expiry changes the directory and nothing else of the handler |
| DumpHandler.DeviceDumpHandler.DebounceCheck | fdr_device_dump.cpp:173-207 | may start if and only if the window of the first profile of that name is off, unused or over |
| DumpHandler.DeviceDumpHandler.CollectDump | fdr_device_dump.cpp:213-285 | context, descriptor and temporary file, then the first call; nothing where a step fails or the key is in flight |
| DumpHandler.DeviceDumpHandler.CallGetDiagnostics | fdr_device_dump.cpp:287-374 | polling, waiting with the backoff, or a failure and cleanup, by reply and attempt |
| DumpHandler.DeviceDumpHandler.TickContext | fdr_device_dump.cpp:394-419 | one second of waiting or polling |
| DumpHandler.DeviceDumpHandler.PollAsyncStatus | fdr_device_dump.cpp:421-495 | success, progress, timeout, error and exception, the last also out of the completion |
| DumpHandler.DeviceDumpHandler.CleanupContext | fdr_device_dump.cpp:497-527 | an open descriptor is closed, the temporary file removed, the context erased |
| DumpHandler.DeviceDumpHandler.OnDumpComplete | fdr_device_dump.cpp:533-665 | every way a completion ends, and whether it throws |
| DumpHandler.DeviceDumpHandler.RecordCollectionFailure | fdr_device_dump.cpp:738-849 | one row in each outcome file |
| DumpCases.ReportStartsIff | fdr_device_dump.cpp:671-726 | a report starts a collection if and only if its severity holds Critical or Warning, the profile matches, the last success remembered is at least the window of the first profile of that name old, the partition accepts, none is in flight, and directory and file can be made; a full partition alone leaves one failure, all else nothing |
| DumpCases.EveryProfileServed | fdr_device_dump.cpp:671-726 | with different profile names without colons, one event starts a collection for every profile that is due when it comes, in the order of the profiles, and no other |
| DumpCases.StartedCollection | fdr_device_dump.cpp:213-285 | a collection starts with its event, its descriptor, one call made and a temporary file under the name of its dump; refused at once, it leaves one failure with the text of the reply |
| DumpCases.ReplyDecides | fdr_device_dump.cpp:287-374 | after a call the collection waits if and only if the reply is a bus error whose text holds Unavailable and the call was at most number MaxRetries, polls if and only if it was accepted, and otherwise is gone with exactly one more failure that carries the text and the number of calls |
| DumpCases.WaitsDouble | fdr_device_dump.cpp:339-350 | the first wait is the delay in whole seconds, at least one; every further one is twice the last |
| DumpCases.TickDecides | fdr_device_dump.cpp:394-419 | a wait counts down second by second to the next call, a poll is counted, and other collections stay as they are |
| DumpCases.PollDecides | fdr_device_dump.cpp:421-495 | a poll leaves the collection in flight if and only if the operation is in progress and fewer than TimeoutSecs polls were made; a timeout, another status and an exception leave one failure with their text |
| DumpCases.DoneDecides | fdr_device_dump.cpp:443-459 | a finished operation has its descriptor closed, is completed and gone; a completion that throws adds one failure with the text of the exception |
| DumpCases.CompletionDecides | fdr_device_dump.cpp:533-665 | a completion leaves a note, a failure for a full partition or a failed write, or one SUCCESS row with event, size, calls and the path below the base directory, remembered with the time it ended; and when it throws |
| DumpCases.KeysTellDevices | fdr_device_dump.cpp:48-52 | without a colon in profile names, profile and component both decide the key |
| DumpCases.ColonsCollide | fdr_device_dump.cpp:48-52 | two devices share a key if a profile name holds a colon |
| DumpOutcomes.OutcomesConserved | fdr_device_dump.cpp:213-374 | in every reachable state, per key, collections started equal those in flight, with a SUCCESS row, with a FAILED row after the start, and ended silently, but for completions that threw behind their row, counted exactly |
| DumpOutcomes.OneOutcomeEachIff | fdr_device_dump.cpp:421-495 | the books balance if and only if no completion threw behind its row |
| DumpOutcomes.CompleteBalance | fdr_device_dump.cpp:533-665 | a completion accounts for its collection once, unless it throws before a row |
| DumpOutcomes.FailureFileMirrorsRows | fdr_device_dump.cpp:738-909 | over every run the failure file is the FAILED rows of the records file, one for one in order |
| DumpOutcomes.RecordedPath | fdr_device_dump.cpp:641-654 | the recorded path is the path below the base directory, however that is written |
| DumpOutcomes.SuccessRowHasFileIff | fdr_device_dump.cpp:606-662 | a stored dump gets its SUCCESS row, and its file is on disk if and only if it fits the budget |
| DumpLifetime.CallDiagFuel | fdr_device_dump.cpp:287-374 | a call ends the collection or leaves it no more ticks than its retries allow |
| DumpLifetime.TickFuel | fdr_device_dump.cpp:394-495 | a tick costs its own context one unit of fuel and others nothing |
| DumpLifetime.RunStaysSound | fdr_device_dump.cpp:287-495 | in every reachable state attempts, waits and polling times are within their bounds |
| DumpLifetime.BoundedLifetime | fdr_device_dump.cpp:287-495 | for all replies a collection makes at most R + 1 calls and is gone within B * (2^R - 1) + max(1, T) ticks, where B = max(1, RetryDelayMs / 1000), R = max(0, MaxRetries) and T = TimeoutSecs |
| DumpLifetime.LifetimeIsReached | fdr_device_dump.cpp:287-495 | for every context there are replies that use its fuel up, so the bound cannot be lowered |
| DumpLifetime.FreshFuel | fdr_device_dump.cpp:213-285 | the fuel a collection starts with is the polling time or, first turned away, the whole bound |
| DumpLifetime.BackoffFitsIff | fdr.cpp:1382-1393 | every backoff fits an int for every int delay if and only if the retry ceiling is at most ten |
| DumpSafety.PollMatches | fdr_device_dump.cpp:421-495 | a poll closes the descriptor once, whatever happens during completion |
| DumpSafety.NoDescriptorLeaks | fdr_device_dump.cpp:249-285 | after every step of every run the open descriptors are exactly those of the contexts, pairwise distinct, none closed twice |
| DumpSafety.StrayClosesCount | fdr_device_dump.cpp:507-511 | closing a descriptor that is not open is counted, and does nothing else |
| DumpSafety.CleanupTemps | fdr_device_dump.cpp:497-527 | after cleanup the temporary path no longer exists |
| DumpSafety.StepTempsIff | fdr_device_dump_store.cpp:67-73 | a step leaves a temporary file without an owner if and only if a serialisation fails in a directory other than the one its collection was opened in |
| DumpSafety.NoTempLeaksIff | fdr_device_dump.cpp:497-527 | over every run, window expiries included, each temporary file on disk belongs to a collection in flight after every step, if and only if that never happens |
| DumpSafety.RotationLeaks | fdr_device_dump_store.cpp:195-214 | from startup, for every profile and device, a run of three events that leaves a temporary file with nothing in flight |
| DumpDebounce.RunRemembers | fdr_device_dump.cpp:635-664 | without late throws, every success is remembered with a time not before its completion |
| DumpDebounce.LateThrowLetsStart | fdr_device_dump.cpp:635-664 | from startup, for every profile with a window, a completion that throws behind its row lets the device start again in the same second |
| DumpDebounce.StartsAreSeparated | fdr_device_dump.cpp:173-285 | over every run, a start under a window comes at least the window after every earlier success of its key |
| DumpDebounce.SeparatedIff | fdr_device_dump.cpp:173-285 | over all runs whose completions throw only at given points, starts keep the window from every earlier success if and only if behind the row is not among the points |
| DumpDebounce.StartIsNoted | fdr_device_dump.cpp:213-285 | a report starts a collection exactly under the stated conditions |
| DumpEndToEnd.StoreIsItsAttempts | fdr_device_dump.cpp:421-665 | after any run of the state machine, window expiries included, the index, and all files but temporary ones, are those of the store calls alone |
| DumpEndToEnd.HandlerKeepsLongestSuffix | fdr_device_dump.cpp:533-665 | from whatever any number of boots left, after any run of the state machine each queue stored to is the longest suffix within the budget and exactly the queued dumps are on disk |
| DumpEndToEnd.RestartAfterRun | fdr_device_dump.cpp:31-46 | a restart after any run of the state machine, collections in flight or not, finds exactly the queued dumps, a profile's in the same order if and only if that was the order of time |
| DumpLives.LivesStaySane | fdr_device_dump.cpp:213-527 | over every life each collection in flight has its temporary file on disk, in whatever directory, and shares it with no other |
| DumpLives.RestartLeaves | fdr_device_dump.cpp:728-732 | a restart leaves behind exactly the temporary files of the collections in flight |
| DumpLives.LiveTempsIff | fdr_device_dump.cpp:497-527 | over every life each temporary file on disk belongs to a collection in flight after every move, if and only if no serialisation fails in another directory and no restart finds a collection in flight |
| DumpLives.LivesConserveOutcomes | fdr_device_dump.cpp:213-374 | over every life, per key, collections started equal those in flight, with a row, ended silently and dropped by a restart, but for completions that threw behind their row, counted exactly |
| DumpLives.RestartForgetsSuccesses | fdr_device_dump.cpp:173-207 | right after a restart every report that could start a collection does, whatever succeeded before |
| DumpLives.LivesKeepUp | fdr_device_dump.cpp:31-46 | over every life with a clock that does not go back, restarts at any point, index and disk are in step with every dump ever stored; none is lost, invented or indexed twice, and each device's dumps carry increasing times |
| DumpLives.LifeKeepsLongestSuffix | fdr_device_dump_store.cpp:220-256 | after every such life and any run from its last restart each queue stored to is the longest suffix within the budget, and exactly the queued dumps are on disk |

## Left out

- CompactorRun.ExactIffPreserveTimeShorterThanGap: speaks of the runs between two restarts; RestartBreaksExactness is what a restart does to it.
- CompactorRecovery.CrashesConverge: treats the bookkeeper rewrite (write to a temporary file, copy back) as one step.
- DumpDebounce.StartsAreSeparated: speaks of the runs between two restarts; RestartForgetsSuccesses is what a restart does to it.
- DumpLives.LiveTempsIff: assumes that removing a temporary file does not fail; the code swallows that error.
- DumpOutcomes.FailureFileMirrorsRows: assumes that appending to the two outcome files succeeds; the code swallows those errors too.
- DumpHistory.RunKeepsLongestSuffix: asks for distinct files, which the handler's own stores have (DumpLives.LivesKeepUp), and for deletion that works (the failing case is in EvictKeepsLongestSuffix).
- DumpRestart.RebuiltAgreesIff: two dumps of one profile with the same second are left in an order that the library sort does not promise.
- Compactor.Recorder.Compact: an exception out of the expiry check is not modelled; the source logs it and still opens the next window (`fdr_compact.cpp:136-175`), with only part of the compaction done and the time of the last window not renewed.
- DumpStore.DeviceDumpStore.SortByTime: the library sort is replaced by an insertion sort; only its result is used.
- DumpStore.DeviceDumpStore.RebuildIndex: exceptions of the directory iterators, which end the scan of one component, are not modelled.
- LeakyBucket.Limiter.Add: the clock is read once per call in whole microseconds and the division by the rate is exact; floating point is not modelled.
- RunningStats.StatRecord.RunningStatisticEngine: values live on the grid of thousandths; the comparison with an epsilon becomes equality there.
- Writers.Recorder.ModifySpecificRecords: reference counts, and the plain .dat writer that is opened and dropped at once, have no effect in the model beyond their creation.
- Compactor.Recorder.CreateHighFidelityFiles: sample files are addressed by their stem; the textual replacement of the file extension is not modelled.
- Sub-window expiry beyond its flush of statistics, disk-usage exits, signals and the boot counter script.
- Event matching, device lookup and object-path substitution for dumps: a report carries their result.
- D-Bus, Redfish, YAML decoding, protobuf field encoding, COBS framing, shared memory, logging: their results are inputs, their payloads opaque.
- Bytes appended behind unreadable ones stay unreadable in the model; resynchronisation by a zero delimiter is not modelled.
- The return value of the decoder in `fdrtool/catalog/catalog.py`, which is unbound for an empty buffer.
- Birth certificate, platform-file cleanup, telemetry validation, database back ends, command-line tools other than the frame decoder.
