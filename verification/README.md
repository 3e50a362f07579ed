# Verification of the release and operations core

Bind Plane releases static address bindings on network switches. Operators ask for
a pre-query, confirm what it found, and a worker that may stall or die at any point
sends one command to the switch. Around that it backs up switch configurations,
compares them, checks them against compliance rules and runs all of this on cron
schedules. These Dafny modules model the parts of that system whose correctness is
hard to see from the code, and prove what they promise. `dafny verify dfyconfig.toml`
checks everything.

| modules | what they model |
|---|---|
| `EditScripts`, `FurthestReach`, `LineDiff`, `Hunks` | the line diff: trimming, the greedy search that may overshoot its box, the walk back, the hunks |
| `Resolution`, `Evidence` | longest-prefix resolution; what a switch's answers prove |
| `ReleaseState`, `ReleaseInvariant`, `ReleaseSteps`, `ReleaseRuns` | the fenced release protocol as a transition system, its invariant, and what holds over whole runs |
| `ReleaseStore`, `DeviceTask` | the transactions of that protocol as methods on tables updated in place, each proved to be one of its steps; a whole device task and where every answer of the switch leads |
| `ReleasePins` | what the pinned revision of a job is for: unedited queries pass, edited ones are refused |
| `Texts`, `CronText`, `CronMeaning`, `Calendar`, `CronSearch` | the cron parser against the meaning of an expression, the calendar, the skipping search |
| `Weekdays`, `MissedMatches`, `RareSchedules`, `PlainSchedules`, `Schedules` | when a later match is missed, two expressions it happens to, expressions of numbers and stars, the scheduler |
| `Compliance` | incremental evaluation against evaluation from scratch |
| `DeviceItems`, `DeviceStore`, `Configurations` | device items under leases and the history of configuration versions, first as a transition system, then as methods on tables; normalised texts |
| `AssetEdits` | versioned edits and the audit record |

## How the protocol is modelled

A step is one database transaction or one action of an executor. A claim takes four
steps, because it holds a row lock while it waits for the advisory lock of an address
and looks again; sweeps, checkpoints and other claims can come between. Each step
carries the start of its transaction, which may lie before the current time, since
that is what `now()` answers. A checkpoint may commit, be refused, or time out; one
that timed out may still commit at any later time. The switch may answer anything.
An executor may stop for ever after any step, which needs no step of its own. Every
safety statement rests on the row locks, the advisory lock and the conditions in the
code's own statements, not on unique indexes. The one index that is used is the one
named by the conflict target of the item queue (`next/api/internal/release/ops.go:451`).

## Where the code differs from what it says

- A schedule is refused as one that never matches, and one that has fired loses its
  next run, when `Next` finds nothing. `Next` keeps its own promise, which is to look
  five years ahead (`CronSearch.NextRunMeans`). What is not true is that nothing found
  means never. `MissedMatches.MissedExactly` gives the exact condition under which a
  later match is missed. `0 0 29 2 *` is missed around years such as 2100. `0 0 1 1 */7`
  is missed today: its weekday field starts with a star, so it is a condition on the
  date, and its step marks Sunday only (`RareSchedules.NewYearSundayMissed`).
- A step close to the largest 64-bit integer wraps around and can mark values below
  its start (`CronText.WrappedStepMarksMore`); `CronText.StepLoopIsExact` gives the
  exact condition under which the loop is right.
- A value above its bounds is refused, but with a step it is accepted and marks
  nothing (`CronText.MarksNothing`).
- A compliance alert is written after its result. If the pass stops in between, the
  alert is not raised until the rule, the switch or its latest backup changes
  (`Compliance.LostAlertStaysLost`). `Compliance.PassMeans` says exactly when a pass
  whose statements succeed leaves an alert.

## Model

| member | source | states |
|---|---|---|
| `LineDiff.DiffLines` | next/api/internal/release/diff.go:34-73 | The returned counts and hunks describe one valid alignment of the two texts; Added + Removed is the minimum over all insert/delete scripts unless Replaced, and Replaced holds exactly when every script needs more than 2000 edits; the hunks patch the old text to the new one and back, and show exactly the changes and the lines within three of one, or between two changes of one hunk |
| `LineDiff.Myers` | next/api/internal/release/diff.go:75-107 | When the search succeeds its script aligns the texts with the least possible number of edits, at most maxD; when it gives up, every script needs more than maxD edits |
| `LineDiff.ReachDiagonal` | next/api/internal/release/diff.go:84-98 | Each inner step records the furthest column of its diagonal from the row for one edit less, with every index in range although it may lie outside the box |
| `LineDiff.Backtrack` | next/api/internal/release/diff.go:109-143 | From the trace of a stopped search, the walk back spells both texts with exactly as many edits as the search made, with all trace and line indices in range |
| `LineDiff.UndoEdit` | next/api/internal/release/diff.go:112-133 | One iteration of the walk back arrives exactly at the point recorded for one edit less, and has aligned everything behind it with one edit more |
| `LineDiff.TakeEqual` | next/api/internal/release/diff.go:121-125 | The inner loop takes only equal lines and stops where the previous row of the trace reached |
| `LineDiff.ReverseInPlace` | next/api/internal/release/diff.go:139-141 | Swapping from both ends reverses the collected operations |
| `LineDiff.SharedPrefix` | next/api/internal/release/diff.go:35-38 | The common prefix is the longest one |
| `LineDiff.SharedSuffix` | next/api/internal/release/diff.go:39-42 | The common suffix after the prefix is the longest one |
| `LineDiff.AlignMiddle` | next/api/internal/release/diff.go:43-53 | The middle gets a cheapest script, or its full replacement exactly when no script within the bound exists |
| `LineDiff.CountEdits` | next/api/internal/release/diff.go:63-70 | Added and Removed are the numbers of added and removed operations of the alignment |
| `LineDiff.Predecessor` | next/api/internal/release/diff.go:114-120 | The predecessor the walk back chooses is the one the search took: a recorded point of the previous row with no negative coordinate, one edit and a run of equal lines before the point it came from |
| `FurthestReach.Maximal` | next/api/internal/release/diff.go:82-98 | No script reaches further on a diagonal than the search does with as many edits, even when the search runs past the box |
| `FurthestReach.NoStopMeansCost` | next/api/internal/release/diff.go:82-106 | If the search has passed d rows without stopping, every script needs at least d edits |
| `FurthestReach.ClippedScript` | next/api/internal/release/diff.go:84-98 | A path that overshoots the box can be clipped to it, and saves one edit for every step of overshoot |
| `FurthestReach.FirstStopIsCorner` | next/api/internal/release/diff.go:99-101 | The first stop is exactly at the far corner on diagonal n - m, never beyond it |
| `EditScripts.TrimmedCost` | next/api/internal/release/diff.go:35-43 | Every lower bound on the edits between the trimmed texts holds for the whole texts, so trimming loses no cheaper alignment |
| `EditScripts.DropSharedFirst` | next/api/internal/release/diff.go:35-38 | A script for two texts with the same first line yields one for the rest without more edits |
| `EditScripts.ReversedScript` | next/api/internal/release/diff.go:139-141 | A reversed script is a script of the reversed texts with as many edits |
| `Hunks.BuildHunks` | next/api/internal/release/diff.go:145-188 | Hunks cut the alignment into windows, in order; an operation is shown exactly when a change lies within the context of it or it lies between two changes that one hunk joins |
| `Hunks.NumberLines` | next/api/internal/release/diff.go:146-160 | Every operation gets its line number in both texts, and exactly the changes are listed |
| `Hunks.NextWindow` | next/api/internal/release/diff.go:162-168 | A hunk extends over exactly the following changes that lie within twice the context plus one |
| `Hunks.ShowLines` | next/api/internal/release/diff.go:170-184 | The lines and the two line counts of a hunk are those of the operations it shows |
| `Hunks.ChangeInOneHunk` | next/api/internal/release/diff.go:162-186 | For every context, each change lies in exactly one hunk |
| `Hunks.HunksNeverTouch` | next/api/internal/release/diff.go:163-169 | Hunks are ordered, and at least one line that neither shows lies between two of them in both texts |
| `Hunks.PatchGivesNewText` | next/api/internal/release/diff.go:145-188 | Every hunk quotes the old text exactly at OldStart, and applying all hunks to the old text gives the new text |
| `Hunks.PatchReverses` | next/api/internal/release/diff.go:145-188 | Read the other way round, from NewStart, the hunks turn the new text back into the old one |
| `Hunks.CutShows` | next/api/internal/release/diff.go:162-186 | Read from the starts, counts and lines of the hunks alone: an operation is shown by some hunk exactly when a change lies at most the context away, before or after, or it lies between two changes of one hunk |
| `Resolution.ResolveNetwork` | next/api/internal/release/resolution.go:19-48 | The loop computes the resolution function that the following rows characterise |
| `Resolution.ResolveMeetsSpec` | next/api/internal/release/resolution.go:19-48 | No switch exactly when no eligible network contains the address, ambiguous exactly when two longest ones belong to different switches, otherwise a longest network, and a switch owns the address alone exactly when it is the answer |
| `Resolution.ScanIsLongest` | next/api/internal/release/resolution.go:24-40 | The running best, selection and ambiguity flag mean what they say after any prefix of the list |
| `Resolution.ContainsMeans` | next/api/internal/release/resolution.go:31-34 | A prefix contains an address exactly when one aligned interval, of two to the power of the host bits addresses, covers both the address and the base of the prefix |
| `Resolution.ContainsEnds` | next/api/internal/release/resolution.go:31-34 | A prefix of 32 bits contains its own address only, one of no bits contains every address |
| `Resolution.OrderDoesNotMatter` | next/api/internal/release/resolution.go:19-48 | Permuting the list changes neither the kind of outcome nor the switch |
| `Evidence.OutputMatchesAny` | backend/bind_plane/services/command_profiles.py:123-129 | The loop computes the same answer as the recursive definition, exceptions included |
| `Evidence.MatchesAnyMeans` | backend/bind_plane/services/command_profiles.py:123-129 | The answer is yes exactly when a match precedes any unusable pattern, no exactly when every pattern misses |
| `Evidence.ParseArpObservation` | backend/bind_plane/services/command_profiles.py:143-183 | The loops compute the observation that the next row characterises, exceptions included |
| `Evidence.RaisesExactly` | backend/bind_plane/services/command_profiles.py:132-163 | The rows raise exactly when one of them has no address text, or is for the address while a list of type values holds something that is no text |
| `Evidence.ParseMeans` | backend/bind_plane/services/command_profiles.py:143-183 | What each observation says about the rows for the address: static if any row is static, unknown before dynamic, missing only without rows and with a missing pattern |
| `Evidence.HasRowMeans` | backend/bind_plane/services/command_profiles.py:132-140 | A row is static exactly when its folded type is a static value, dynamic when it is a dynamic value and no static one, unclassified when it is neither |
| `Evidence.ParseReads` | backend/bind_plane/services/command_profiles.py:132-183 | The observation read off the matched rows for the address and the value sets of the profile |
| `Evidence.ParseRaises` | backend/bind_plane/services/command_profiles.py:132-183 | Parsing raises exactly for an unusable expression, for a row without address text or of the address when the values cannot be read, and, when no row is for the address, for the missing patterns |
| `Evidence.ParsedAddress` | backend/bind_plane/services/command_profiles.py:143-183 | The hardware address is that of the first row for the address with the type that was found, and there is none without such rows |
| `Evidence.ClassifyRaises` | backend/bind_plane/services/command_profiles.py:194-233 | Classifying raises exactly when an unusable error pattern precedes a match, or, without one, an unusable success pattern does |
| `Evidence.ClassifyMeans` | backend/bind_plane/services/command_profiles.py:194-233 | Failure exactly when an error pattern matched or a static row remains; success exactly when neither holds, no row is unclassified, and a dynamic row or a missing pattern was seen |
| `ReleaseInvariant.AdvanceKeepsRecord` | next/worker/main.py:202-340 | Every step of the device task keeps the record of commands sent, observations made and dependencies checked consistent |
| `ReleaseInvariant.AdvanceKeepsPlace` | next/worker/main.py:238-335 | Every checkpoint the device task asks for is one its evidence permits |
| `ReleaseInvariant.AdvanceKeepsRow` | next/worker/main.py:238-335 | A device task that goes on still has a row that is running or uncertain |
| `ReleaseSteps.StepKeepsInv` | next/worker/main.py:30-388 | Every step of every actor keeps the ten-part invariant: claims in four parts, checkpoints, lost answers that commit later, heartbeats, sweeps, preparation, confirmation, retry and asset edits |
| `ReleaseRuns.RunInv` | next/worker/main.py:30-388 | The invariant holds in every state of every run |
| `ReleaseRuns.OneReleasePerAddress` | next/worker/main.py:46-87 | In every reachable state at most one release job of an address is running or needs manual confirmation |
| `ReleaseRuns.WindowBlocks` | next/worker/main.py:293-335 | While a command is about to be sent, or was sent and nothing proves its outcome, its job is running or uncertain, however its answer or its lease was lost |
| `ReleaseRuns.CommandsNeverOverlap` | next/worker/main.py:293-335 | No two executors ever have such a command for one address, even when answers timed out and leases expired |
| `ReleaseRuns.FailedAnswerAbandons` | next/worker/main.py:316-335 | An answer that fails or times out leaves the command without a proof of its outcome |
| `ReleaseRuns.AbandonedBlocksForEver` | next/worker/main.py:316-335 | A command whose outcome will not be proved keeps its job running or uncertain for ever, and no command for its address is started any more |
| `ReleaseRuns.UncertainBlocksForEver` | next/worker/main.py:46-87 | Once a release is uncertain, no other job of its address ever starts a command |
| `ReleaseRuns.RunLater` | next/worker/main.py:90-127 | Over any stretch of a run a finished status never changes, creation columns never change and executors are never forgotten |
| `ReleaseRuns.ClaimedAtMostOnce` | next/worker/main.py:77-84 | No job is claimed twice in a run |
| `ReleaseRuns.SendsAtMostOnce` | next/worker/main.py:293-295 | No job sends two release commands in a run |
| `ReleaseRuns.WritersHoldTheLease` | next/worker/main.py:108-119 | Whoever writes a row under a token holds its lease at that moment: the job is running, was claimed with that token, and its lease ends after the start of the writing transaction |
| `ReleaseRuns.WritesNeedLeaseExactly` | next/worker/main.py:90-141 | A checkpoint, a late one or a heartbeat writes exactly when the row is running under that token with a lease that ends later, and otherwise leaves every row alone |
| `ReleaseRuns.SweptLeaseIsDead` | next/worker/main.py:30-43 | After a sweep revoked a lease nothing of its executor is ever written again and the row stays as the sweep left it |
| `ReleaseRuns.QueriesNeverSend` | next/worker/main.py:258-280 | A pre-query, and so every retry, never sends a command |
| `ReleaseRuns.RetryAddsOneQuery` | next/api/internal/release/retry.go:12-70 | A retry changes no existing job or executor and adds one queued query linked to a failed, timed out or uncertain job; at no later time has that job changed or the new one sent a command |
| `ReleaseRuns.FinalStatusIsHonest` | next/worker/main.py:238-335 | Cancelled and timeout mean nothing was sent; failed after a command means an error pattern matched or static remained; succeeded means one command, no error pattern and neither static nor unclassified rows afterwards |
| `ReleaseRuns.EveryCommandIsAuthorised` | next/api/internal/release/store.go:137-213 | Every command rests on its own frozen preparation by the same actor with the right evidence and rights, and on a fresh query of the sending session that allows it |
| `ReleaseRuns.SameAssetsAsPreparation` | next/worker/main.py:156-199 | Whenever a release reaches its switch it read the same edited switch and profile columns as the executor of its preparation, under any history of edits |
| `ReleaseRuns.ConfirmationIsIdempotent` | next/api/internal/release/store.go:174-185 | Confirming again at any later time finds the release that the first confirmation created |
| `ReleaseRuns.ReachedMeans` | next/worker/main.py:189-199 | An executor that opened a session had read the pinned revision of an enabled switch |
| `ReleaseStore.Store.SweepExpired` | next/worker/main.py:30-43 | Exactly the running rows with an expired lease become uncertain, in one step, with one event each |
| `ReleaseStore.Store.Pick` | next/worker/main.py:49-59 | Takes the first created of the unlocked queued jobs whose address is free, and none only if there is none |
| `ReleaseStore.Store.AcquireAddress` | next/worker/main.py:60-67 | Takes the advisory lock of the address as one step of the protocol |
| `ReleaseStore.Store.RecheckAddress` | next/worker/main.py:68-76 | Drops the claim exactly when another release of the address is running or uncertain |
| `ReleaseStore.Store.Commit` | next/worker/main.py:77-84 | Makes the job running under a new token and lease, as one step of the protocol |
| `ReleaseStore.Store.ClaimAlone` | next/worker/main.py:46-87 | Without competitors the whole claim takes the first created claimable job if there is one and is never turned away by its recheck |
| `ReleaseStore.Store.Checkpoint` | next/worker/main.py:90-127 | Answers ok exactly when the row is running under the token with a lease that ends after the start of the transaction; then the status, the observation and a lease of 90 seconds or none are written with an event, otherwise every row is left alone |
| `ReleaseStore.Store.ExtendLease` | next/worker/main.py:130-141 | Extends the lease by 90 seconds exactly when the row is running under the token with a lease that ends after the start of the transaction, otherwise changes nothing |
| `ReleaseStore.Store.LoadDependenciesOf` | next/worker/main.py:156-170 | The executor sees the joined rows of its pinned switch and profile at one moment, or nothing, as one step of the protocol |
| `ReleaseStore.Store.Proceed` | next/worker/main.py:202-340 | Whatever the switch, the network or the runtime does, the executor takes the step of the protocol for it, and no other |
| `ReleaseStore.ReadActiveNetworks` | next/api/internal/release/store.go:32-50 | The loop lists the joined networks |
| `ReleaseStore.ActiveNetworksMean` | next/api/internal/release/store.go:32-50 | Exactly the networks whose switch, credential and profile join and are active are listed, so an enabled one leads to a usable switch |
| `ReleaseStore.DecidePrepare` | next/api/internal/release/store.go:75-106 | Each stop before the inserting transaction, with exactly when it happens, and otherwise the only possible target |
| `ReleaseStore.Store.PrepareQuery` | next/api/internal/release/store.go:75-132 | Each of the seven outcomes with exactly when it happens; a query is queued exactly when there is a target whose switch is usable, that is the owner of the address when the networks were read or the switch an administrator chose for a forced query of an unowned one, and its row holds the current version of the switch and of its command profile, each in its own column |
| `ReleaseStore.FindRelease` | next/api/internal/release/store.go:174-188 | Finds the release of a preparation exactly when there is one |
| `ReleaseStore.DecideConfirm` | next/api/internal/release/store.go:151-198 | The guards of a confirmation in order |
| `ReleaseStore.Store.ConfirmRelease` | next/api/internal/release/store.go:137-214 | The outcome follows the guards in order, an existing release is returned, and a new one is exactly the confirmation step that the runs are about |
| `ReleaseStore.DecideRetry` | next/api/internal/release/retry.go:24-60 | Each of the five outcomes with exactly when it happens, and where a retry goes |
| `ReleaseStore.Store.RetryQuery` | next/api/internal/release/retry.go:12-70 | A retry is queued exactly when it is allowed and has a usable switch to go to, refused as changed exactly when that switch is not usable, and the new row holds the current versions and the address and force flag of the job |
| `ReleaseStore.RetryExactly` | next/api/internal/release/retry.go:24-60 | A retry is allowed exactly for the owner of an unforced job or an administrator, when the job failed, timed out or is uncertain, and goes to its own switch without a network and else to the present owner of the address, which is enabled with active assets |
| `ReleasePins.UneditedQueryPasses` | next/api/internal/release/store.go:105-117 | In every run a prepared or retried query whose switch, profile and credential are not edited before they are loaded passes the dependency check |
| `ReleasePins.PinCurrentExactly` | next/api/internal/release/store.go:52-73 | A pinned revision is current exactly when neither version has moved on, the switch and its assets are in service, and a resolved address still belongs to the switch alone |
| `ReleasePins.ConfirmationExactly` | next/api/internal/release/store.go:137-214 | Every answer of a confirmation with exactly when it is given, and which edits since the pre-query make it refuse as changed |
| `DeviceTask.RunDeviceTask` | next/worker/main.py:202-335 | While its lease holds, a task ends exactly where the answers of the outside lead: final status, observation in the row and number of commands, for both kinds, both force settings, every entry type and every failure |
| `DeviceTask.CheckAndSetUp` | next/worker/main.py:189-237 | Dependencies that are missing, inactive or of another version, or a session that cannot be built, end the job as failed with nothing sent; otherwise it goes on |
| `DeviceTask.DecideOnEntry` | next/worker/main.py:251-293 | Unknown ends uncertain, dynamic and unforced missing cancel, a query with static or forced missing waits for confirmation, a release with either may send |
| `DeviceTask.SendAndClassify` | next/worker/main.py:293-335 | Exactly one command is sent; the final status is that of the evidence, and uncertain when an answer fails or cannot be classified |
| `DeviceTask.HandleFailure` | next/worker/main.py:316-335 | A failure before the command ends as failed or timeout, one after it as uncertain |
| `DeviceTask.GiveUpTask` | next/worker/main.py:370-388 | A task whose writes fail ends as uncertain once the device may have been reached, otherwise as failed |
| `DeviceTask.PreparedQueryIsReady` | next/worker/main.py:156-199 | In every run a prepared or retried query with unedited assets is ready for such a task once they are loaded |
| `DeviceTask.StaticQueryWaits` | next/worker/main.py:258-280 | A row for the address that reads static takes a ready query to waiting for confirmation |
| `Calendar.DaysFollowDates` | next/api/internal/release/cron.go:97-116 | The calendar the search steps through is faithful: day numbers follow the order of dates |
| `Calendar.SameMonth` | next/api/internal/release/cron.go:104-105 | All days up to the first of the next month share year and month |
| `Calendar.NextDay` | next/api/internal/release/cron.go:97-116 | Each date is followed by the next day of the month, the first of the next month or New Year, with the month lengths of common and leap years written out |
| `Calendar.KnownDay` | next/api/internal/release/cron.go:86-93 | 1 January 1970 was a Thursday, and weekdays take turns with Sunday as 0 |
| `CronSearch.Next` | next/api/internal/release/cron.go:97-116 | The skipping search equals the minute-by-minute search |
| `CronSearch.NextRunMeans` | next/api/internal/release/cron.go:95-116 | The result is the least matching minute strictly after the argument, and is missing exactly when no minute matches before the limit five calendar years after the first candidate |
| `CronSearch.MonthSkip` | next/api/internal/release/cron.go:104-105 | Skipping to the next month passes no match and makes progress |
| `CronSearch.DaySkip` | next/api/internal/release/cron.go:106-107 | Skipping to the next day passes no match and makes progress |
| `CronSearch.HourSkip` | next/api/internal/release/cron.go:108-109 | Skipping to the next hour passes no match and makes progress |
| `MissedMatches.MissedExactly` | next/api/internal/release/ops_schedules.go:20-33 | The search finds nothing although the schedule matches later if and only if the fields can match and the reason is one of two: 29 February is the only date asked for and none is looked at, or, where the weekday is a further condition, none of the dates asked for in the six years at most that are looked at falls on a weekday asked for |
| `MissedMatches.MatchesLaterExactly` | next/api/internal/release/ops_schedules.go:20-33 | Whether a schedule matches at any later time can be read off its fields |
| `MissedMatches.NothingFoundExactly` | next/api/internal/release/ops_schedules.go:23-33 | No next run is found exactly when the fields can never match or the match is missed |
| `MissedMatches.AlternativeFound` | next/api/internal/release/cron.go:86-93 | A schedule that asks for weekdays as an alternative to dates is never missed |
| `Weekdays.EveryWeekday` | next/api/internal/release/cron.go:97-116 | Every date of the calendar, 29 February included, falls on every weekday in some later year |
| `RareSchedules.LeapDayText` | next/api/internal/release/cron.go:20-42 | The text 0 0 29 2 * parses to midnight of 29 February on any weekday |
| `RareSchedules.LeapDayMissedExactly` | next/api/internal/release/ops_schedules.go:23-33 | That schedule is missed exactly after an instant from which no leap day is looked at |
| `RareSchedules.LeapDayMissed` | next/api/internal/release/ops_schedules.go:23-33 | After a leap day not followed by one four years on, the search for 29 February finds nothing although the leap day eight years later matches |
| `RareSchedules.NewYearSundayText` | next/api/internal/release/cron.go:20-42 | The text 0 0 1 1 */7 parses to midnight of a 1 January that is a Sunday: the step marks Sunday only and the star makes the weekday a condition on the date |
| `RareSchedules.NewYearSundayMissedExactly` | next/api/internal/release/ops_schedules.go:23-33 | That schedule is missed exactly after an instant from which no 1 January that is looked at is a Sunday |
| `RareSchedules.NewYearSundayMissed` | next/api/internal/release/ops_schedules.go:23-33 | After 1 January 2023 the search finds nothing for it, although 1 January 2034 matches |
| `CronText.ParseCronField` | next/api/internal/release/cron.go:44-84 | The loops compute the field function, stopping at the first bad entry |
| `CronText.PartsMean` | next/api/internal/release/cron.go:44-84 | A field is refused with the error of its first bad entry, otherwise it marks exactly what one of its entries marks |
| `CronText.StepLoopIsExact` | next/api/internal/release/cron.go:79-81 | The step loop marks exactly the values of the step if and only if no addition wraps a 64-bit integer around to a value that is marked |
| `CronText.WrappedStepMarksMore` | next/api/internal/release/cron.go:79-81 | A huge step for which the loop marks a minute nobody asked for |
| `CronText.MarksNothing` | next/api/internal/release/cron.go:68-78 | An entry is accepted and marks nothing exactly when it is a stepped value above the bounds |
| `CronText.ParseCron` | next/api/internal/release/cron.go:20-42 | The loop over the fields computes the expression function, stopping at the first bad field |
| `CronMeaning.EntryReads` | next/api/internal/release/cron.go:47-78 | The text of an entry is accepted exactly when the entry is legal, and then reads as that entry |
| `CronMeaning.ListReads` | next/api/internal/release/cron.go:44-84 | The text of a list is accepted exactly when all entries are legal, and then marks exactly the values its entries say |
| `CronMeaning.ScheduleFields` | next/api/internal/release/cron.go:20-42 | When no step wraps around, the parsed fields are exactly what the entries say, with 7 as another name for Sunday and the star rule for the day fields |
| `CronMeaning.ScheduleReads` | next/api/internal/release/cron.go:20-93 | The text of a schedule is accepted exactly when all entries are legal, and the parsed schedule then matches exactly the minutes the entries say, with the rule for two restricted day fields and 7 as Sunday |
| `PlainSchedules.Accepted` | next/api/internal/release/cron.go:20-42 | An expression of numbers and stars is accepted exactly when the minute is at most 59, the hour at most 23, the day from 1 to 31, the month from 1 to 12 and the weekday at most 7 |
| `PlainSchedules.MatchesExactly` | next/api/internal/release/cron.go:20-93 | It then matches exactly the minutes whose wall clock shows its numbers; of a day and a weekday that are both given either one is enough, and 7 is Sunday |
| `CronMeaning.StoredTextParsesTheSame` | next/api/internal/release/ops_schedules.go:35 | The normalised text that is stored parses to what was entered and normalises to itself |
| `Texts.SplitJoin` | next/api/internal/release/cron.go:46 | Splitting undoes joining when no piece contains the separator |
| `Texts.AtoiDecimal` | next/api/internal/release/cron.go:53 | A decimal text reads back as its number exactly when the number fits 64 bits |
| `Texts.AtoiSigned` | next/api/internal/release/cron.go:53 | A sign is allowed before the digits, with the exact 64-bit bounds of both |
| `Schedules.Scheduler.SelectDue` | next/api/internal/release/ops_schedules.go:223-241 | Selects due, unlocked schedules, earliest first, at most twenty and fewer only if there are no more |
| `Schedules.Scheduler.RunDueSchedules` | next/api/internal/release/ops_schedules.go:217-255 | Every selected schedule fires once and gets its next run from the time of the pass, all others stay as they are; a schedule whose items cannot be queued undoes the whole pass |
| `Schedules.Scheduler.Read` | next/api/internal/release/ops_schedules.go:35 | Reads the expression of a text as it is stored, or none exactly when the text is no expression |
| `Schedules.Scheduler.CreateSchedule` | next/api/internal/release/ops_schedules.go:51-91 | Created with its next run, or refused exactly when the text is no expression, has no next run, or the table rejects it |
| `Schedules.Scheduler.EditSchedule` | next/api/internal/release/ops_schedules.go:93-151 | A versioned edit stores each requested expression, enabled flag and details in its column, keeps the others, and computes the next run from the edited row, or changes nothing; each refusal in the order of the code |
| `Schedules.EditedMeans` | next/api/internal/release/ops_schedules.go:107-150 | Which columns an edit saves, read from the request |
| `Schedules.FiringsAreSeparatedByMatches` | next/api/internal/release/ops_schedules.go:217-255 | Between two consecutive firings lies a match of the current expression, under any edits and any downtime, so a backlog fires once |
| `Schedules.NextRunAlwaysMatches` | next/api/internal/release/ops_schedules.go:134-150 | The stored next run always matches the stored expression |
| `Schedules.DueExactlyAfterMatch` | next/api/internal/release/ops_schedules.go:223-255 | An enabled schedule is due exactly when a match within the search limit has passed since its next run was computed |
| `Schedules.LastFiring` | next/api/internal/release/ops_schedules.go:250-252 | Edits never touch the time of the last firing |
| `Schedules.RefusalIsHonestExactly` | next/api/internal/release/ops_schedules.go:20-33 | The refusal of a new schedule as one that never matches is true exactly when the match is not missed |
| `Schedules.FiringSilencesExactly` | next/api/internal/release/ops_schedules.go:242-252 | A firing leaves an enabled schedule without a next run exactly when it can never match or its next match is missed, and in the second case it does match later |
| `Schedules.SilentUntilEdited` | next/api/internal/release/ops_schedules.go:223-255 | A schedule without a next run is left alone by every pass until it is edited |
| `Compliance.Evaluator.SelectPending` | next/api/internal/release/ops_compliance.go:232-260 | The pending pairs in order of backup, at most 5000 and fewer only if there are no more |
| `Compliance.Evaluator.CleanUp` | next/api/internal/release/ops_compliance.go:221-231 | Deletes exactly the results out of scope, and then exactly the alerts without a failing critical result |
| `Compliance.Evaluator.EvaluateItems` | next/api/internal/release/ops_compliance.go:261-297 | The loop with its one-entry content cache writes what evaluating each item on its own would write |
| `Compliance.Evaluator.EvaluateCompliance` | next/api/internal/release/ops_compliance.go:220-299 | One failure-free pass is one pass of the history |
| `Compliance.VerdictMeans` | next/api/internal/release/ops_compliance.go:43-62 | From the engine and the content: must_contain passes exactly when the content opens and the pattern is found, must_not_contain exactly when it opens, the pattern compiles and is not found |
| `Compliance.CaughtUpTables` | next/api/internal/release/ops_compliance.go:220-299 | When nothing is pending after a pass, every in-scope pair with a backup has a result that is passed exactly in that sense on its newest backup, and an alert is active exactly for critical rules that are not satisfied |
| `Compliance.PassMeans` | next/api/internal/release/ops_compliance.go:220-299 | The exact result and alert of every pair after a pass |
| `Compliance.PassProgress` | next/api/internal/release/ops_compliance.go:232-260 | A pass takes exactly min(5000, pending) items off the pending work |
| `Compliance.PassKeepsRecords` | next/api/internal/release/ops_compliance.go:281-284 | A stored result that is up to date is always the verdict of its rule version on its backup |
| `Compliance.CaughtUpMeansFromScratch` | next/api/internal/release/ops_compliance.go:220-299 | When nothing is pending after a pass, results are exactly the in-scope pairs with the verdict on the latest backup, and active alerts exactly the failing critical ones |
| `Compliance.IncrementalEqualsFromScratch` | next/api/internal/release/ops_compliance.go:220-299 | The same across any history of edits of rules and switches and of new backups |
| `Compliance.MissingAlertStays` | next/api/internal/release/ops_compliance.go:232-237 | A pass raises no alert for a result that is up to date |
| `Compliance.LostAlertStaysLost` | next/api/internal/release/ops_compliance.go:281-296 | A pass that stops between a failing critical result and its alert loses the alert: over any history no pass raises it until the rule, the switch or its latest backup changes |
| `DeviceItems.StepKeepsInv` | next/worker/devices.py:214-365 | Every step of every actor keeps the invariant of items, leases and versions |
| `DeviceItems.OnePendingPerSwitch` | next/api/internal/release/ops.go:450-457 | In every reachable state a switch has at most one pending item of each kind |
| `DeviceItems.AdjacentVersionsDiffer` | next/worker/devices.py:338-355 | Versions of a switch that follow each other in list order always have different fingerprints |
| `DeviceItems.ChangedItemsOwnVersions` | next/worker/devices.py:344-360 | Each item marked changed owns exactly one version, and each version belongs to such an item |
| `DeviceItems.LostLeaseLeavesNoVersion` | next/worker/devices.py:357-360 | An item that failed, was skipped or lost its lease owns no version |
| `DeviceStore.EnqueuedMeans` | next/api/internal/release/ops.go:450-457 | The new item of a switch is skipped exactly when one of its kind is queued or running, else queued |
| `DeviceStore.StoredMeans` | next/worker/devices.py:338-365 | A held backup leaves the fingerprint it found as that of the latest version of its switch, with one more version exactly when it was not so before |
| `DeviceStore.Devices.EnqueueDeviceTask` | next/api/internal/release/ops.go:418-464 | One item per enabled switch in scope, queued or skipped exactly when one is already pending, with the two counts it reports |
| `DeviceStore.Devices.ClaimDeviceItems` | next/worker/devices.py:224-234 | Takes the oldest queued items up to the limit, each under its own token, and changes no other |
| `DeviceStore.Devices.SweepDeviceItems` | next/worker/devices.py:214-221 | Exactly the running items with an expired lease fail, as one step |
| `DeviceStore.Devices.FinishItem` | next/worker/devices.py:237-249 | Finishes the item exactly when it is running under the token, and clears its lease |
| `DeviceStore.Devices.StoreBackup` | next/worker/devices.py:338-365 | A held item leaves the fingerprint it found as the latest version of its switch, adding one exactly when it differs, the first version included; a lost item leaves no trace |
| `DeviceStore.LatestFingerprint` | next/worker/devices.py:339-343 | The fingerprint of the version captured last, the higher identifier deciding between equal times |
| `Configurations.NormalizeConfig` | next/worker/devices.py:101-107 | The popping loops compute the normalised text |
| `Configurations.LinesAreNormal` | next/worker/devices.py:101-107 | A normalised text has no carriage returns, no trailing blanks and no empty first or last line |
| `Configurations.NormalizedTwice` | next/worker/devices.py:101-107 | Normalising keeps the significant lines, and doing it twice changes nothing |
| `Configurations.UnixLinesMean` | next/worker/devices.py:101-107 | A carriage return ends a line, together with a line feed that follows it |
| `Configurations.NothingElseIsLost` | next/worker/devices.py:101-107 | Normalising keeps a stretch of the lines, drops trailing blanks of each and only blank lines outside the stretch |
| `AssetEdits.AssetTable.CollectChanges` | next/api/internal/release/admin_edit.go:97-119 | The loop collects exactly the columns that change, with what the audit records about each |
| `AssetEdits.AssetTable.UpdateAudited` | next/api/internal/release/admin_edit.go:72-139 | Not found, stale, unchanged, rejected and committed, each with exactly when it happens, and the new row and event of a commit; the event of a secret column says cleared or replaced and never holds a value |
| `AssetEdits.CommittedEditRecords` | next/api/internal/release/admin_edit.go:97-139 | For every committed event of every run: a secret column is recorded as cleared exactly when null was requested and a value stored, as replaced exactly when a value was requested, and is stored exactly then; another column is recorded with both values exactly when they differ beyond formatting |
| `AssetEdits.OtherEditsRecordNothing` | next/api/internal/release/admin_edit.go:72-96 | An edit that is not committed adds no event and changes no row |
| `AssetEdits.VersionCountsEdits` | next/api/internal/release/admin_edit.go:123 | A version is the initial version plus the number of recorded edits |
| `AssetEdits.VersionDeterminesRow` | next/api/internal/release/admin_edit.go:64-65 | While an object keeps its version it keeps every column, so a pinned version stands for the columns |
| `AssetEdits.OneCommitPerVersion` | next/api/internal/release/admin_edit.go:94-96 | Two changing edits made from one version of an object cannot both commit |
| `AssetEdits.ReplayReproducesColumns` | next/api/internal/release/admin_edit.go:110-117 | Replaying the recorded values in order reproduces every column that is not secret, up to formatting |
| `AssetEdits.EditedColumn` | next/api/internal/release/admin_edit.go:141-155 | A committed edit leaves a column, up to formatting, as its recorded change says |

## Left out

- HTTP handlers, sessions, JSON decoding, list and audit views, CSV import and the two user interfaces: plumbing around the modelled steps.
- Encryption, password hashing and fingerprints: decryption is an abstract outcome, a fingerprint an abstract value.
- Regular expression engines: a pattern is represented by what it matches in one output, and the case folding and blank stripping of matched groups by its result.
- The evidence line of a compliance result and the wording of every message: results carry the verdict only.
- Sockets, Telnet, SSH and the device library: the switch is arbitrary.
- PostgreSQL's isolation: a statement or short transaction is one atomic step. A claim's blocked check sees committed rows when it is made, and a claim holds its row lock until it commits or gives up.
- Collisions of the hash that the advisory lock uses: they only add waiting.
- ReleaseStore.Store.AcquireAddress: waiting for the lock is not modelled; the method is called when the lock is free, and the transition system lets any other step come first.
- Timestamps, phases and recorded outputs of jobs: rows carry the columns that decisions read. A checkpoint's observation before the release is one of them.
- A heartbeat that fails writes nothing and does not stop the device thread, so it has no step; a heartbeat that succeeds is one.
- Credentials are not pinned by the code, so `ReleaseRuns.SameAssetsAsPreparation` speaks of switch and profile columns only.
- The loops that poll for work and the pruning of old task runs: they repeat modelled steps.
- Daylight saving: times are minutes in a zone with a constant whole-minute offset.
- Schedules.Scheduler.RunDueSchedules: the items a firing queues are modelled in `DeviceStore`; here a firing is recorded, and a failure to queue items undoes the pass.
- Compliance.Evaluator.EvaluateCompliance: the tables do not change while a pass runs; edits come between passes.
- DeviceStore.Devices.StoreBackup: sealing and storing the content is not modelled, only its fingerprint.
- Reachability checks and the alerts of device operations: each is one write after a fenced finish.
- AssetEdits.AssetTable.UpdateAudited: the table's constraints and the follow-up of an edit are one outcome that undoes it.
- Deleting switches, rules and networks: the modelled tables only gain and change rows, apart from results and alerts.
- The legacy executor and its queue: superseded by the fenced protocol; only its evidence rules are modelled.
