# FreshCore Native: a verified model

FreshCore is a daemon for rooted phones. A timer drives a small engine; after a long
screen-off period the engine sweeps some system directories, scans and measures the caches
of the installed packages, ranks them, and deletes them in batches while it keeps watching
whether the device is still idle. What it did is remembered per package in a checksummed
binary file. Beside that runs a hook that rebuilds the microphone route when the first
audio capture stream opens.

This project states that behaviour in Dafny and proves what it guarantees, for every file
tree, every sequence of observations and every interruption. `dafny verify dfyconfig.toml`
checks all of it.

| files | what they hold |
|---|---|
| `Basics`, `Fnv1a` | machine integers, configuration values, the package-name hash |
| `StateImage`, `StateLayout`, `StateStorage` | the bytes of the state file; the store, its save and its reload |
| `FileTree`, `Phone`, `IdleDetection` | the file tree, the device with all its answers, the idle verdict |
| `Cleaning`, `CacheCleaner` | the recursive batched removal as a function, and the methods that compute it |
| `CleaningRuns`, `CleaningConservation`, `CleaningResidue`, `CleaningBudget`, `CleaningShape` | what every removal does to the log, the counters and the tree |
| `CleaningVerdict`, `MaintenanceVerdict`, `MaintenanceWhole` | which removals, cleans, sweeps and loops succeed, as a condition on what lies ahead |
| `MaintenanceExamples` | concrete runs |
| `CacheAnalysis`, `CacheAnalysisLaws`, `CacheAnalyzer`, `PathPolicy` | measuring, cooldown, selection and ranking; which paths count as caches |
| `Maintenance`, `MaintenanceRunner`, `MaintenanceRuns`, `MaintenanceTargets`, `MaintenanceRank`, `CleaningSettled`, `MaintenanceLaws` | one whole maintenance: sweeps, scan, analysis, target loop |
| `CleaningHistory` | the cooldown and the clean counts over the lifetime of the process |
| `Scheduling`, `Daemon` | the engine's state machine over timer ticks, and the scheduler loop |
| `MicFixer` | event decoding, the stream counter and the mixer routes |

The device answers from an `Env`: functions from "how many times was this asked before" to
an answer, one each for idle observations, direct screen checks, the wall clock, memory
self-checks, path resolution and the list of packages. A statement for all environments is
therefore a statement for all behaviours of the device. The classes keep the fields that
the C++ modules keep as statics, and each method is proved to compute a function of the old
state; the laws are proved about those functions. A ghost log on the device records
observations, unlinks, directory removals, batch ends, analyses and completed cleans.

## Results that contradict the documentation or the evident intent

- Instant wake (README of the daemon, line 33): a completed maintenance forces doze and
  leaves the engine in ACTIVE. Until the next maintenance doze is released exactly when some
  tick sees the screen on after another saw it off (`DozeReleasedExactlyWhen`); a phone that
  is simply taken into use stays in forced doze (`DozeOutlastsScreenOn` has the schedule).
- Safety before touching the disk (README of the daemon, line 38): battery, thermal, memory
  and foreground checks matter only two ticks before a maintenance. When a tick maintains
  is `MaintainsExactlyWhen`; whatever the checks answer later changes nothing
  (`LateSafetyIsIgnored`), and `SafetyIsNotRechecked` has a schedule.
- The cleanup budget "per run": the totals are never reset, so the budget is spent for the
  life of the process (`BudgetSpentForLife`). It is only consulted when a batch fills up,
  and then stops what is already over it. A removal never exceeds it when it had room for
  all of the removable bytes from the start (`RoomKeepsBudget`), and an undisturbed one keeps
  to it exactly then (`BudgetKeptExactlyWhen`), whatever the tree. Over budget a removal still
  succeeds exactly for the trees without a full batch in any directory
  (`OverBudgetSucceedsExactlyWhen`); in `BudgetIsExceeded` 10 MiB and then another 10 MiB are
  removed on a budget of 1 MiB.
- Cleaning a target: one plain file or symlink directly inside it aborts the maintenance
  (`CleanSucceedsExactlyWhen`, `CleanWithRoomExactlyWhen`), and the sweeps never remove the
  plain files they are meant for (`SweepKeepsPlainFiles`). The children of a target cost no
  observation, so empty directories in it go even with the screen on (`EmptyDirectoriesUnobserved`).
  `PlainFileAborts` has a target that is never cleaned.
- A sweep goes on after an abort: inside the directory it has reached, once the screen is
  off again it removes down to its residue each directory tree still to come, if the budget
  has room (`SweepGoesOn`); while the screen is on it takes empty directories and nothing else
  (`SweepUnderLitScreen`). `SweepContinuesAfterNotIdle` has a run. Before each of the three
  directories the screen is looked at again, and if it is on the others are not swept
  (`SweepsEnd`); with the screen off all of them are (`SweepsRemoveAll`).
- Sweeps that saw the screen on do not stop the maintenance: it gets to the analysis exactly
  when the direct screen checks after them see it off (`SurveyCompletesExactlyWhen`). The
  continuous idleness of `ContinuouslyIdle` holds where a maintenance starts; it does not
  extend to the cleaning.
- The recorded size 0 after a clean is true only if nothing with a size resisted removal
  (`RecordedEmptyExactlyWhen`, and `RecordedEmptyIsWrong` for a target of five bytes).
- Massive growth does not always lift the cooldown: it does exactly when the daily growth,
  less its whole multiples of 4 GiB, is at least 500 MiB (`GrowthLiftsCooldownExactlyWhen`,
  and `GrownRestsExactlyWhen` for the record a whole maintenance leaves).
  4 GiB a day is stored as no growth, 4 GiB and 600 MiB as 600 MiB (`MassiveGrowthWraps`).
- The atomic save ignores write errors: a short write replaces the state file by one that
  cannot be loaded (`ShortWriteLosesStore`). The checksum does not cover the header
  (`ChangedByteVerdict`).
- Below the root "/" the path test always fails (`StringTestIsContainment`).
- A negative idle delay disables maintenance for good (`NegativeDelayNever`).

## Model

| member | source | states |
|---|---|---|
| Basics.MebibytesExactly | diagnostics/diagnostics.cpp:72 | for every int setting, the byte limit is the expected one, or just below 2^64 for a negative setting |
| Fnv1a.HashPackageName | cache/state_storage.cpp:26-33 | the accumulator loop computes 32-bit FNV-1a |
| Fnv1a.StepInjectiveInState | cache/state_storage.cpp:29-30 | one round maps different states to different states |
| Fnv1a.StepInjectiveInOctet | cache/state_storage.cpp:29-30 | one round maps different bytes to different states |
| Fnv1a.CommonSuffix | cache/state_storage.cpp:26-33 | appending the same suffix neither creates nor removes a collision |
| Fnv1a.OneByteSeparates | cache/state_storage.cpp:26-33 | names of equal length that differ in at most one place collide exactly when they agree there too |
| Fnv1a.KnownHashes | cache/state_storage.cpp:26-33 | the hashes of the empty name and of "a" are the published ones |
| StateImage.CalculateChecksum | cache/state_storage.cpp:35-43 | the loop sums all record bytes, padding included, modulo 2^32 |
| StateImage.LoadImage | cache/state_storage.cpp:52-69 | an image of fewer than 2^32 records loads back to its records, whatever the padding |
| StateImage.StrictPrefixRejected | cache/state_storage.cpp:52-64 | no strict prefix of a saved image is accepted |
| StateImage.PayloadByteRejected | cache/state_storage.cpp:66-69 | one changed payload byte is always detected |
| StateImage.ChangedByteVerdict | cache/state_storage.cpp:52-69 | for every position: a changed byte is detected unless it is in the timestamp, or shortens the count by records whose bytes sum to 0 modulo 2^32 |
| StateLayout.ImageLayout | cache/state_storage.hpp:9-16 | in every image each header field and each field of record i lies at its byte offset, little-endian, with four bytes of padding behind the hash |
| StateLayout.SumIsPlain | cache/state_storage.cpp:35-43 | the checksum adds plain bytes |
| StateStorage.RoundTrip | cache/state_storage.cpp:71-73 | loading a complete image into an empty store gives the saved store exactly when every key is its record's hash and there are fewer than 2^32 records, for every iteration order |
| StateStorage.UpdateKeepsKeysMatch | cache/state_storage.cpp:77-92 | updating with a record keeps keys and hashes in agreement exactly when the record carries the hash that was handed out |
| StateStorage.RecoverKeepsKeysMatch | cache/state_storage.cpp:71-73 | every load keeps keys and hashes in agreement, whatever the file holds |
| StateStorage.CrashRecovery | cache/state_storage.cpp:112-127 | cut anywhere, a save whose writes succeed leaves the whole old file or the whole new one, and a restart recovers the old store or the new one |
| StateStorage.SaveKeepsDependable | cache/state_storage.cpp:94-128 | over any number of saves whose writes succeed, every state the files go through recovers to the initial store or a saved one, and a restart finds the last store saved when the saves go through |
| StateStorage.ShortWriteLosesStore | cache/state_storage.cpp:118-127 | the file a renamed save leaves is readable exactly when all bytes were written |
| StateStorage.StateDisk.Publish | cache/state_storage.cpp:112-127 | open, write, rename pass exactly through the listed crash points |
| StateStorage.PackageStore.InitializeStateStorage | cache/state_storage.cpp:45-75 | merges the accepted records under their own hashes, and changes nothing otherwise |
| StateStorage.PackageStore.GetPackageState | cache/state_storage.cpp:77-87 | the record under the name's hash or a zeroed one that carries the hash |
| StateStorage.PackageStore.UpdatePackageState | cache/state_storage.cpp:89-92 | replaces the record under the name's hash and nothing else |
| StateStorage.PackageStore.CopyRecords | cache/state_storage.cpp:95-99 | every record once, in some order, with any padding |
| StateStorage.PackageStore.SaveStateAtomic | cache/state_storage.cpp:94-128 | writes an image of the current store, ends at the last crash point of that save, and keeps the history of the files dependable |
| FileTree.AtPut | storage/filesystem.cpp:44-56 | after a replacement the path holds what was put there |
| FileTree.PutElsewhere | storage/filesystem.cpp:44-56 | a replacement leaves every path that is neither above nor below alone |
| FileTree.PutAbove | storage/filesystem.cpp:44-56 | a directory above a replacement keeps its attributes and its other entries |
| IdleDetection.StampWitness | power/idle_detector.cpp:20-29 | a set stamp is the time of an observation since which every one saw the screen off |
| IdleDetection.StampStays | power/idle_detector.cpp:26-29 | while the screen stays off a set stamp does not move |
| IdleDetection.VerdictExactly | power/idle_detector.cpp:20-44 | not idle exactly with the screen on; a candidate exactly with it off, the delay passed since the stamp, battery, temperature and memory safe and nothing heavy in front |
| Phone.Device.GetDirectoryChildren | storage/filesystem.cpp:22-42 | lists all names exactly when the path is a readable directory that is not a symlink |
| Phone.Device.SafeRemove | storage/filesystem.cpp:44-56 | removes a leaf or an empty directory exactly when the device permits it |
| Phone.Device.GetDirectorySize | cache/package_scanner.cpp:13-33 | the recursive loop sums the leaves of the readable part of the tree |
| FileTree.SizeIsVisible | cache/package_scanner.cpp:13-33 | the size is that of all files and symlinks outside directories that cannot be listed, and nothing inside those counts |
| CacheCleaner.IdleDetector.EvaluateIdleState | power/idle_detector.cpp:20-44 | the verdict and the new stamp, for every observation |
| CacheCleaner.Diagnostics.EndBatch | diagnostics/diagnostics.cpp:60-78 | adds the batch to the totals and lets cleaning go on exactly within budget and self-limits |
| CacheCleaner.Cleaner.VisitChild | cache/cache_cleaner.cpp:43-75 | one turn of the loop: abort, recurse, unlink and batch limit |
| CacheCleaner.Cleaner.VisitChildren | cache/cache_cleaner.cpp:43-76 | the loop over a snapshot of the children, wherever it ends |
| CacheCleaner.Cleaner.RemoveRecursiveBatched | cache/cache_cleaner.cpp:33-83 | the method computes the removal function on the subtree and replaces nothing but that subtree |
| CleaningRuns.TreeRuns | cache/cache_cleaner.cpp:33-83 | every removal keeps the log disciplined: each unlink right after an idle observation, full batches in the loop, partial ones at the end, totals within budget where cleaning goes on; it stops at the first halting event |
| CleaningRuns.SucceedsExactlyWhen | cache/cache_cleaner.cpp:33-83 | it succeeds exactly for a directory with only listable directories below and no halting event |
| CleaningConservation.Conservation | cache/cache_cleaner.cpp:39-82 | bytes and files before are those unlinked plus those left; totals never over-count, are exact on success, and miss exactly the open batches of the aborted frames, each below the limit |
| CleaningResidue.ExactResidue | cache/cache_cleaner.cpp:43-82 | after success a path survives exactly when something at or below it cannot be removed, and keeps its attributes |
| CleaningResidue.SecondRunRemovesNothing | cache/cache_cleaner.cpp:33-83 | a second run on the residue changes nothing, unlinks no file and frees no byte, even if aborted |
| CleaningBudget.BudgetLatches | diagnostics/diagnostics.cpp:13-14 | once a total exceeds the budget no later batch end lets cleaning go on |
| CleaningHistory.BudgetSpentForLife | diagnostics/diagnostics.cpp:60-78 | over every lifetime, after one batch end over budget none lets cleaning go on and the daemon stays over budget |
| CleaningBudget.EveryFrameBounded | cache/cache_cleaner.cpp:66-76 | over budget, at every depth a directory loses at most one batch of its own files |
| CleaningBudget.BudgetInBytes | diagnostics/diagnostics.cpp:72 | the budget is the configured number times 1 048 576 for every setting that is not negative |
| CleaningVerdict.OverBudgetSucceedsExactlyWhen | cache/cache_cleaner.cpp:66-78 | over budget a removal succeeds exactly for a listable directory tree without a batch of removable files in any one directory, with the screen off for as many observations as it has nodes |
| CleaningVerdict.ExhaustedSucceedsExactlyWhen | diagnostics/diagnostics.cpp:77 | the same when the process exceeds its own limits, whatever the budget |
| CleaningVerdict.NoBatchSucceedsExactlyWhen | cache/cache_cleaner.cpp:66-75 | without a positive batch limit and with failing batch ends only an empty directory can be removed |
| CleaningVerdict.SlimTreesIgnoreBudget | cache/cache_cleaner.cpp:66-78 | where no directory fills a batch, removal succeeds exactly when the screen stays off for as many observations as there are nodes, whatever the totals |
| CleaningVerdict.RoomKeepsBudget | diagnostics/diagnostics.cpp:60-78 | room for a tree's removable bytes from the start is enough for its removal never to exceed the budget, in every environment and wherever it is cut short |
| CleaningVerdict.BudgetKeptExactlyWhen | diagnostics/diagnostics.cpp:60-78 | an undisturbed removal of any listable directory tree keeps the total within the budget exactly when all of its removable bytes had room from the start |
| CleaningVerdict.BudgetIsExceeded | diagnostics/diagnostics.cpp:72-75 | starting from nothing, a tree of 10 MiB is removed on a budget of 1 MiB, and a second one over budget |
| CleaningVerdict.SucceedsWithRoomExactlyWhen | cache/cache_cleaner.cpp:33-83 | with room in the budget, removal of any tree succeeds exactly when it is listable and the screen stays off for one observation per node, and makes exactly those observations |
| CacheAnalysis.PriorityLevels | cache/cache_analyzer.cpp:56-65 | priorities are 1 to 4; which sizes and growth rates reach 2, 3 and 4; growth in size or rate never lowers one |
| CacheAnalysis.AnalysisIsClosedForm | cache/cache_analyzer.cpp:24-69 | the loop equals a closed form: which directories are measured, one growth update per record from its first directory, the size of its last one, and the targets |
| CacheAnalysis.FirstAndLast | cache/cache_analyzer.cpp:24-50 | the closed form's first and last directories of a record are the first and the last |
| CacheAnalysis.SelectedNotCooling | cache/cache_analyzer.cpp:27-33 | no target was cooling down before the call; each meets the threshold |
| CacheAnalysis.PositionsAreSelected | cache/cache_analyzer.cpp:52-68 | the list of selected positions holds exactly the measured directories that meet the threshold |
| CacheAnalysis.SelectionIsExact | cache/cache_analyzer.cpp:52-68 | targets are exactly the selected positions in increasing order, so none is repeated |
| CacheAnalysis.AnalysisKeepsHistory | cache/cache_analyzer.cpp:47-50 | clean times, clean counts and hashes are left alone |
| CacheAnalysis.AnalysisKeepsKeysMatch | cache/cache_analyzer.cpp:25-50 | the analyzer keeps keys and record hashes in agreement |
| CacheAnalysisLaws.RateExactly | cache/cache_analyzer.cpp:24-45 | a growth rate stays unless its record is not resting, a day has passed and the first listed directory has grown; then it is the growth per whole day cut to 32 bits |
| CacheAnalysisLaws.RateChangesOnlyByGrowth | cache/cache_analyzer.cpp:40-45 | every changed rate has such a directory |
| CacheAnalysisLaws.UnlistedUntouched | cache/cache_analyzer.cpp:24-50 | a record without a listed directory is left alone |
| CacheAnalysisLaws.ScanRecorded | cache/cache_analyzer.cpp:36-50 | a resting record is left alone; one not cleaned within six hours gets the time of the call and the size of its last listed directory |
| CacheAnalysisLaws.TargetInNumbers | cache/cache_analyzer.cpp:36-68 | each target is a listed directory of a package not resting, with its size on disk, at least the threshold in bytes, ranked by that size and the final rate of its record |
| CacheAnalysisLaws.LargeIsSelected | cache/cache_analyzer.cpp:27-68 | every listed directory of at least the threshold becomes a target unless its package was cleaned within six hours and does not grow massively |
| CacheAnalysis.GrowthExactlyWhenItFits | cache/cache_analyzer.cpp:43-45 | the stored growth rate is the measured one exactly when it fits in 32 bits |
| CacheAnalysis.GrowthLiftsCooldownExactlyWhen | cache/cache_analyzer.cpp:27-45 | a measured and cleaned package is looked at again within six hours exactly when its daily growth modulo 2^32 is at least 500 MiB; massive growth fails to achieve it exactly in the first 500 MiB of each further 4 GiB |
| CacheAnalysis.MassiveGrowthWraps | cache/cache_analyzer.cpp:28-45 | growth of 4 GiB a day is stored as 0 and does not lift the cooldown, 4 GiB and 600 MiB is stored as 600 MiB and does |
| CacheAnalyzer.SortByPriority | cache/cache_analyzer.cpp:75-77 | a permutation in descending priority, ties in any order |
| CacheAnalyzer.Analyzer.AnalyzeOne | cache/cache_analyzer.cpp:24-69 | the loop body computes cooldown, measurement, growth, update and priority of one directory |
| CacheAnalyzer.Analyzer.AnalyzeCaches | cache/cache_analyzer.cpp:17-80 | updates the list in place and the store as the analysis function says, saves the result, returns the targets ranked |
| PathPolicy.SplitOfRender | storage/filesystem.cpp:12-20 | canonical paths and component lists correspond one to one |
| PathPolicy.StringTestIsContainment | storage/filesystem.cpp:58-71 | on canonical paths the string test is proper component containment, except below "/" |
| PathPolicy.ValidExactlyWhen | cache/cache_policy.cpp:8-29 | a path is valid exactly when it resolves strictly below the data directory to `cache` or `code_cache` |
| PathPolicy.ScanPackageCache | cache/package_scanner.cpp:35-72 | yields exactly the accepted candidates of an included package, in order |
| PathPolicy.ScanStaysInside | cache/package_scanner.cpp:46-69 | every yielded directory is external by its text or resolves strictly below the package's data directory |
| PathPolicy.PackageYields | cache/package_scanner.cpp:35-69 | what a package yields is included by the setting for its kind, lies at one of its three places, is a directory and resolves inside, or is external |
| PathPolicy.PackageFinds | cache/package_scanner.cpp:35-69 | every such place of an included package is found |
| MaintenanceLaws.ScanYields | core/decision_engine.cpp:28-37 | everything a scan yields belongs to an installed package that the settings include |
| MaintenanceLaws.ScanFinds | core/decision_engine.cpp:28-37 | a scan that completes finds every place of every included package |
| MaintenanceRunner.Maintainer.RecordClean | cache/cache_cleaner.cpp:103-109 | a completed clean is timed, entered under the hash of the name and saved, touching no other record |
| MaintenanceRunner.Maintainer.CleanDirectorySafely | cache/cache_cleaner.cpp:85-112 | cleans the children, and on success alone records, saves and logs the clean |
| MaintenanceLaws.CleanWritesExactly | cache/cache_cleaner.cpp:88-109 | a completed clean of a listable target sets clean time, count and size 0 in the record of its hash; scan time, growth rate and all other records stay, and nothing else writes any |
| MaintenanceLaws.CleansKeepScans | core/decision_engine.cpp:41-53 | the target loop changes no scan time, growth rate or hash |
| MaintenanceLaws.MaintenanceKeepsScans | core/decision_engine.cpp:38-53 | after a maintenance scan times and growth rates are those of its analysis, or as before if it got to none |
| MaintenanceLaws.CleanedRestsExactlyWhen | cache/cache_analyzer.cpp:27-33 | the record a completed clean leaves rests for six hours exactly when its growth is below 500 MiB a day |
| MaintenanceLaws.GrownRestsExactlyWhen | cache/cache_analyzer.cpp:27-45 | over a whole maintenance, a package that grew and was cleaned rests exactly when its daily growth cut to 32 bits is below 500 MiB |
| MaintenanceRunner.Maintainer.CleanAll | core/decision_engine.cpp:41-53 | the target loop with its idle check before each target |
| MaintenanceRunner.Maintainer.RunSystemMaintenanceSweeps | cache/cache_cleaner.cpp:131-163 | the sweeps as a function of the tree and the observations |
| MaintenanceRunner.Maintainer.ScanAll | core/decision_engine.cpp:28-37 | scans the packages in order until a screen check fails |
| MaintenanceRunner.Maintainer.PerformMaintenance | core/decision_engine.cpp:15-53 | one whole maintenance, for any ranking of the targets |
| MaintenanceRuns.CleanSucceedsExactlyWhen | cache/cache_cleaner.cpp:88-99 | a clean succeeds exactly when the target cannot be listed or holds only listable directory trees and nothing halts |
| MaintenanceVerdict.CleanWithRoomExactlyWhen | cache/cache_cleaner.cpp:85-99 | with room in the budget a clean succeeds exactly when the target cannot be listed, or holds only listable directory trees and the screen stays off for one observation per node below its children |
| MaintenanceVerdict.CleanOverBudgetExactlyWhen | cache/cache_cleaner.cpp:85-99 | over budget the same, for targets without a full batch in any directory below them |
| MaintenanceVerdict.EmptyDirectoriesUnobserved | cache/cache_cleaner.cpp:93-99 | empty directories in a target are removed without any observation |
| MaintenanceRuns.RecordedEmptyExactlyWhen | cache/cache_cleaner.cpp:103-108 | the recorded size 0 is the size on disk exactly when nothing with a size is left |
| MaintenanceExamples.RecordedEmptyIsWrong | cache/cache_cleaner.cpp:103-108 | a target with an unremovable file of five bytes is recorded with size 0 |
| MaintenanceExamples.PlainFileAborts | cache/cache_cleaner.cpp:93-99 | a target with a plain file beside an empty directory: the clean fails and removes nothing |
| MaintenanceRuns.TargetConservation | cache/cache_cleaner.cpp:85-112 | a target's measured size is what was unlinked plus its measured size afterwards, aborted or not |
| MaintenanceRuns.AbortIsFinal | core/decision_engine.cpp:41-53 | in the target loop nothing follows a NOT_IDLE observation |
| MaintenanceTargets.CleaningRespectsRank | core/decision_engine.cpp:39-53 | for any ranked targets, processed ones are a prefix and keep nothing removable, those not begun on never outrank them; targets with no begun one around them hold exactly their residue or are untouched |
| MaintenanceTargets.SuccessProcessesAll | core/decision_engine.cpp:41-53 | a loop that completes leaves nothing removable in any target, nested or repeated ones included, and exactly the residue in one with no other around it |
| MaintenanceRank.ScanSeparate | cache/package_scanner.cpp:46-69 | packages with different names and data directories, none inside another or the external one, are scanned into directories none of which lies in another |
| MaintenanceRank.RankedSeparate | cache/cache_analyzer.cpp:75-77 | ranking keeps targets separate |
| MaintenanceRank.MaintenanceRespectsRank | core/decision_engine.cpp:15-53 | every maintenance, completed or cut short, processed a prefix of its ranked targets and left nothing removable in them, and completed exactly when it processed all; over unrelated packages processed targets hold exactly their residue and those not begun on are untouched |
| MaintenanceWhole.LoopWithRoomExactlyWhen | core/decision_engine.cpp:41-53 | with room in the budget, a loop over targets of which none lies in another completes exactly when each can be cleaned and the screen stays off for one observation per target and per node below its children |
| MaintenanceWhole.SurveyCompletesExactlyWhen | core/decision_engine.cpp:17-37 | a maintenance gets to the analysis exactly when one direct screen check after the sweeps and one per package see the screen off, whatever the sweeps saw |
| MaintenanceWhole.MaintenanceCompletesExactlyWhen | core/decision_engine.cpp:15-53 | over unrelated packages and with room, a maintenance that gets to the analysis completes exactly when its targets can be cleaned and the screen stays off for the observations of its loop |
| MaintenanceTargets.TargetsElsewhere | core/decision_engine.cpp:41-53 | cleaning touches no path that is not above, below or at a target it was begun on |
| MaintenanceTargets.LoopKeepsSettled | core/decision_engine.cpp:41-53 | once nothing removable is left at a path, no cleaning of any targets around it changes that |
| CleaningSettled.TreeKeepsSettled | cache/cache_cleaner.cpp:33-83 | no removal, aborted or not, makes a directory without removable content anything else |
| MaintenanceTargets.SweepKeepsPlainFiles | cache/cache_cleaner.cpp:151-160 | a sweep removes no plain file, symlink or protected entry directly inside a swept directory |
| MaintenanceExamples.SweepContinuesAfterNotIdle | cache/cache_cleaner.cpp:131-163 | with two crash reports in /data/tombstones the sweeps of a fresh daemon unlink a file two events after a NOT_IDLE observation |
| MaintenanceVerdict.SweepGoesOn | cache/cache_cleaner.cpp:151-160 | from any point of a sweep on, whatever was aborted before, with the screen off each further unprotected listable directory tree is left with exactly its residue |
| MaintenanceWhole.SweepAllGoesOn | cache/cache_cleaner.cpp:141-163 | from any swept directory on, with the screen off and the budget not in the way, each unprotected listable directory tree in all further ones is left with exactly its residue |
| MaintenanceWhole.SweepsRemoveAll | cache/cache_cleaner.cpp:131-163 | the same for /data/tombstones, /data/system/dropbox and /data/local/tmp over the whole of the sweeps |
| MaintenanceWhole.SweepsElsewhere | cache/cache_cleaner.cpp:141-145 | the sweeps touch nothing that is not above, below or at one of these three |
| MaintenanceWhole.SweepsInOrder | cache/cache_cleaner.cpp:145-149 | the look before each directory that sees the screen on ends the sweeps with exactly the directories before it swept |
| MaintenanceWhole.SweepsLook | cache/cache_cleaner.cpp:131-149 | with nothing to sweep the sweeps look five times, and three times if the third look sees the screen on |
| MaintenanceWhole.ProtectedExactlyWhen | cache/cache_cleaner.cpp:154-155 | an entry is spared exactly when its name contains freshcore.log |
| MaintenanceVerdict.SweepUnderLitScreen | cache/cache_cleaner.cpp:151-160 | from any point of a sweep on, with the screen on no file is unlinked and only empty directories disappear |
| CleaningHistory.MaintenanceKeepsHistory | core/decision_engine.cpp:15-53 | every maintenance, however it ends, keeps the log legitimate, the store up to date with it, and totals that never over-count |
| CleaningHistory.SurveyObserves | core/decision_engine.cpp:15-20 | every maintenance makes at least three observations: two for the trims and one for the first sweep |
| CleaningHistory.CooldownInLog | cache/cache_analyzer.cpp:24-33 | in any log whose cleans were each let through by the analysis before them, two cleans under one hash with an analysis between are six hours apart or the record showed 500 MiB a day |
| CleaningHistory.CooldownOverLifetimes | cache/cache_analyzer.cpp:27-33 | over every lifetime two cleans under one hash with an analysis between are six hours apart or the record showed 500 MiB a day |
| CleaningHistory.CleanNeedsAnalysis | core/decision_engine.cpp:38-53 | no maintenance cleans anything before its analysis |
| CleaningHistory.CooldownAcrossMaintenances | cache/cache_analyzer.cpp:27-33 | over every lifetime two cleans under one hash in different maintenances are six hours apart or the record showed 500 MiB a day |
| CleaningHistory.MaintenanceCountsCleans | cache/cache_cleaner.cpp:104-108 | each record's clean count rises by exactly the completed cleans of its packages, modulo 2^32 |
| Scheduling.MaintenanceSpacing | core/scheduler.cpp:89-115 | in every schedule maintenances are at least 2460 s apart, 2490 s after an aborted one |
| Scheduling.SpacingIsAttained | core/scheduler.cpp:89-115 | a schedule with two maintenances exactly 2460 s apart, the first with the five observations that its trims and sweep checks make |
| Scheduling.AbortedSpacingIsAttained | core/scheduler.cpp:89-115 | a schedule with a maintenance exactly 2490 s after an aborted one ended |
| Scheduling.ArrivesExactlyWhen | core/decision_engine.cpp:67-108 | which tick leads to which state: ACTIVE after every screen-on tick, a completed maintenance or an abort, and so on for each state |
| Scheduling.ScreenOnStartsOver | core/decision_engine.cpp:67-72 | every screen-on tick leads to ACTIVE and puts the next maintenance off by at least 2460 s |
| Scheduling.ContinuouslyIdle | core/decision_engine.cpp:82-96 | a maintenance comes two ticks after a candidate evaluation with battery, temperature and memory safe and nothing heavy in front, with the screen off at every observation since the stamp and the delay plus 360 s elapsed |
| Scheduling.MaintainsExactlyWhen | core/decision_engine.cpp:82-96 | a tick maintains exactly when two ticks before the engine in SCREEN_OFF got IDLE_CANDIDATE and both ticks since saw the screen off |
| Scheduling.LateSafetyIsIgnored | core/decision_engine.cpp:88-96 | changing the safety answers from the tick before on never changes whether a tick maintains |
| Scheduling.MaintenanceComes | core/decision_engine.cpp:76-108 | with the screen off and everything safe a maintenance comes within max(1, ceil(delay/300)) + 4 ticks of any tick boundary |
| Scheduling.NegativeDelayNever | power/idle_detector.cpp:31-35 | with a negative delay no tick ever maintains |
| Scheduling.SafetyIsNotRechecked | core/decision_engine.cpp:88-96 | a schedule that maintains although safety was lost two ticks earlier |
| Scheduling.DozeReleasedExactlyWhen | core/decision_engine.cpp:57-73 | between maintenances a forced doze is released exactly when a tick saw the screen on after another saw it off |
| Scheduling.DozeChangesExactlyWhen | core/decision_engine.cpp:57-73 | at each tick of any schedule: doze is forced by a completed maintenance and released exactly by a screen-on tick outside ACTIVE |
| Scheduling.DozeOutlastsScreenOn | core/decision_engine.cpp:57-73 | a schedule in which doze stays forced through two ticks that see the screen on |
| Daemon.DecisionEngine.TransitionTo | core/state.cpp:23-28 | the engine is in the given state afterwards |
| Daemon.DecisionEngine.PerformMaintenance | core/decision_engine.cpp:15-61 | ends in ACTIVE with doze forced, or in ABORTING |
| Daemon.DecisionEngine.EvaluateAndTransition | core/decision_engine.cpp:63-109 | one tick takes the engine and the world as the state machine says |
| Daemon.Scheduler.SetTimer | core/scheduler.cpp:23-30 | arms the timer once with the given interval |
| Daemon.Scheduler.HandleTimer | core/scheduler.cpp:82-115 | a processed tick extends the schedule and the lifetime, and arms the timer for the state just entered |
| Daemon.Scheduler.RunScheduler | core/scheduler.cpp:62-118 | every run of the loop is explained by an ordered schedule and a lifetime, with one tick per readable timer event, and keeps the state file dependable throughout |
| Daemon.TicksExactly | core/scheduler.cpp:64-86 | exactly the readable timer events before a failed wait are ticks |
| MicFixer.WalkVisitsAll | audio/mic_fixer.cpp:193-195 | the pointer walk over encoded records visits each once, in order, and ends at the end |
| MicFixer.SplittingDoesNotMatter | audio/mic_fixer.cpp:190-195 | any split of the same records into whole-record reads is handled alike |
| MicFixer.UnmutedExactlyWhen | audio/mic_fixer.cpp:57-94 | a rebuild leaves the line unmuted exactly when each unmute was accepted, or its mute was refused and the line was open |
| MicFixer.UnmutedFromFirstRebuild | audio/mic_fixer.cpp:194-218 | if commands succeed the line is unmuted from the first rebuild on |
| MicFixer.RebuildRoutes | audio/mic_fixer.cpp:57-94 | if commands succeed a rebuild leaves all seventeen controls at their values |
| MicFixer.OtherControlsKept | audio/mic_fixer.cpp:57-94 | a rebuild leaves every other control as it was |
| MicFixer.MutedWhileRouting | audio/mic_fixer.cpp:57-91 | while a rebuild sets the routes the line is muted |
| MicFixer.EventBits | audio/mic_fixer.cpp:197-210 | an event opens exactly with bit 5 set and closes exactly with bit 3 or 4 set |
| MicFixer.LowestIsMinimum | audio/mic_fixer.cpp:194-218 | the lowest balance is the minimum over all prefixes |
| MicFixer.CountIsReflectedWalk | audio/mic_fixer.cpp:194-218 | the stream count is the balance of opens and closes reflected at its minimum; rebuilds are the returns to zero plus one while a stream is open |
| MicFixer.AlsaHook.Apply | audio/mic_fixer.cpp:57-94 | runs a table of mixer commands in order, refused ones changing nothing |
| MicFixer.AlsaHook.OpenStream | audio/mic_fixer.cpp:197-206 | an open raises the count, and rebuilds the route exactly when it was zero |
| MicFixer.AlsaHook.HandleEvent | audio/mic_fixer.cpp:197-218 | an open before a close, a rebuild on the first open only, no count below zero |
| MicFixer.AlsaHook.HandleBuffer | audio/mic_fixer.cpp:193-219 | the pointer loop stays in bounds, terminates and handles every record |
| MicFixer.AlsaHook.AlsaInotifyLoop | audio/mic_fixer.cpp:176-220 | over all reads until the loop ends, the counter and the mixer follow the events |

## Left out

- Sensors and shells: screen node detection, battery, thermal, pressure and foreground probes are arbitrary observations; notifications, boot tweaks and what `fstrim` trims have no modelled effect.
- Concurrency with other processes: the file tree changes only through the cleaner during a maintenance; between maintenances it may change in any way.
- PathPolicy.ScanPackageCache: components "." and ".." of a candidate are looked up like any other name. A path is looked up component by component from the root, so an intermediate symlink is not followed; `realpath` is an arbitrary function, assumed to yield canonical paths only in `ScanStaysInside`.
- Batch durations: `StartBatch` and the slow-batch warning only produce log output.
- Logging, threads, signals, configuration parsing: the configuration is a parameter. No configuration key sets the three tick intervals, which are constants here.
- The polling fallback of the audio fixer and the matching of tool output: whether a mixer command is accepted is arbitrary. Reads are assumed to hold whole records of at most 4096 bytes.
- A failing self-limit probe and huge record counts that exhaust memory during a load are not modelled.
- The daemon's main program never loads the state file; loading is modelled as the storage module's own contract.
- CacheCleaner.Diagnostics.EndBatch: the process totals are unbounded numbers; wrap-around of the 64-bit byte total and of the int file total is not modelled.
- CacheCleaner.IdleDetector.EvaluateIdleState: the product of the delay in minutes and 60 is exact before it is converted to 64 bits; its overflow as an int is undefined in C++.
- MicFixer.AlsaHook.HandleEvent: the stream count is unbounded; overflow after 2^31 open streams is not modelled.
- StateStorage.StateDisk.Publish: a write that fails part way leaves a prefix of the image; a failed header write followed by a successful record write is not distinguished.
- StateStorage.ShortWriteLosesStore: speaks of writes that leave a prefix of the image, as `StateDisk.Publish` does; what a failed header write followed by whole records loads as depends on the record bytes.
- CacheAnalyzer.SortByPriority: stands in for the library sort; only the order it promises is used.
- Phone.Device.GetDirectorySize: the sum is exact, and narrowed to 64 bits where the analyzer stores it.
- FileTree: all attributes of a node are fixed; what `readdir` returns is the stored order of the entries, which is arbitrary but the same for every listing.
