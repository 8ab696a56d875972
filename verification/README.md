# A verified model of the hydra fleet

This project models the deterministic cores of the fleet services in Dafny and states what they keep over
whole runs. Clocks, fresh ids, tokens, optional services and callbacks are parameters. Services that update
their fields in place are classes with the same fields; each of their methods is specified by a function or
a relation over the old and the new state, and the laws are proved about those.

* **Cron and schedules** (`Calendar`, `CronScan`, `CronZone`, `CronParser`, `CronEngine`, `CronRules`, `CronWriting`,
  `Schedules`, `ScheduleLaws`): the proleptic Gregorian calendar over day numbers, the five-field parser, the UTC skip
  scan, the zone scan over wall time at a constant offset, and the scheduler state machine on top; what the day fields
  and the written forms mean, and what an owner can rely on over a schedule's life.
* **Canonical JSON** (`Utf16`, `NumberText`, `NumeralValues`, `StringText`, `CanonicalJson`, `JsonReading`): the signing
  form is determined by the value and determines it, and by the grammar of JSON it says that value. Texts are sequences
  of UTF-16 code units; finite numbers are their shortest digits and decimal point, printed in the layouts of
  Number::toString (ECMA-262).
* **Tasks and their gate** (`TaskTree`, `TasksService`, `TaskRecords`, `TaskRuns`, `ArtifactContracts`, `GoalQuery`,
  `GoalPatterns`, `WatchedTree`, `Watchdog`, `GateLaws`, `Acceptance`): the forest of tasks, locks and tokens, recursive
  auto-close, the evidence judge, the SQL goal filter, the verification gate with its re-entrancy guard, and where an
  acceptance comes from.
* **Collision detection** (`Collisions`, `CollisionRuns`, `CollisionKeys`): the pruned, bounded ledger against the
  full history, and what the dedupe key makes of it.
* **Rooms** (`IsoTime`, `MemoryText`, `RoomMemory`, `MemoryLaws`, `NoteLaws`, `Teams`, `TeamLaws`): the memory file that
  is parsed back, section by section, and the membership, grants and scope index.
* **Supervisor** (`WakeQueue`, `Supervisor`, `WakeRuns`, `WakeLaws`, `MergeQueue`, `MergeProgress`): the durable wake
  queue, who is woken when, and merge scans in any interleaving of their steps.
* **Budgets and the agent registry** (`Budgets`, `Registry`, `RegistryLaws`).

## Where the code is weaker than its comments

* The collision dedupe key joins names with "::". Detection is complete over given files and agents exactly when
  no key of theirs stands for two collisions (`CollisionKeys.DetectionCompleteExactly`); names with colons clash, on
  two files and on one, and the second collision is swallowed (`CollisionKeys.AmbiguousKeyLosesCollision`).
* A post whose body leaves white space at the end of its line is altered by the next edit of the file
  (`MemoryLaws.PostSurvivesNext`); an actor with "**: " inside, or a body with U+2028 or U+2029, does not parse
  back (`MemoryText.LineRoundTrip`).
* Two scans strand delivered wakes, open and tracked by nothing: takeover of a delivered wake, and the orphan scan
  when it drops a timed-out record whose agent showed a sign of life. Nothing else strands a wake
  (`WakeRuns.StrandedExactly`), and no scan delivers a stranded one again (`WakeRuns.StrandedForever`).
* A merge gate that throws leaves its entry `verifying` for good, and nothing else does
  (`MergeQueue.LeftBehindExactly`, `MergeQueue.AbandonedForever`); a failed entry without an owner gets no fix wake
  (`MergeQueue.EveryInterleaving`).
* Changing a budget's cap keeps its notices in step with its level exactly when the level stays
  (`Budgets.ReconfiguringKeepsFlags`). A cap lowered so far that the spend passes its soft threshold never warns again
  (`Budgets.LoweredCapInput`), and neither does one raised after its warning (`Budgets.RaisedCapInput`); exactly which
  budgets still publish every rise of every run is `Budgets.RisesPublishedExactly`, and which never warn again
  `Budgets.NeverWarnsExactly`.
* The stop fingerprint does not cover evidence, and every full pass records its stop, a rejecting one too. So a false
  leaf is rejected unless the last full pass, PASS or REJECT, saw the same stop, some PASS of any stop is less than a
  window ago, and the call is not forced (`GateLaws.FalseLeafRejectedByHistory`). A rejected leaf completed again on
  false evidence, by which its tree rests on the stop of that REJECT, slips through (`GateLaws.RejectedStopSlipsThrough`);
  so does an accepted leaf that three verbs bring back with failing evidence (`GateLaws.FalseDoneSlipsThrough`).
* A NaN or infinite result is accepted by `complete` and stored as null, so stored evidence is never empty exactly
  as long as results are finite (`TaskRuns.EvidenceStep`). On such a leaf the gate answers REJECT, yet the pass range
  "== 0" accepts it (`ArtifactContracts.StoredNullMeetsZero`, `GateLaws.RejectExactly`).
* The LIKE of the goal filter agrees with membership on plain ids exactly when the goal is plain, or is a text no list
  of plain ids can match: one with a character other than a letter, digit, dash, wildcard or comma, or with a comma
  that cannot stand between two quotes (`GoalPatterns.FilterAgreesExactly`). It selects too much for wildcards, upper
  case and commas (`GoalPatterns.WildcardGoalMatchesMore`, `GoalPatterns.UpperCaseGoalMatchesMore`,
  `GoalPatterns.CommaGoalMatchesMore`).
* Auto-close moves any open state to the closing state, also Triage to Completed, which the transition table of
  plugins/fleet-tasks/src/types.ts does not list; the model follows the code.

## Model

| member | source | states |
|---|---|---|
| Calendar.DateUnique | src/schedule-service.ts:669-680 | a day number has one date: the UTC date getters and Date.UTC undo each other |
| Calendar.NextDay | src/schedule-service.ts:708-711 | the day after a date is the next of its month or the first of the next month |
| Calendar.YearBefore | src/schedule-service.ts:708-711 | a year before a first of a month lies the first of the same month, and 364 days before it a day of the same month |
| CronRules.WeekdayOfDate | src/schedule-service.ts:669-680 | the weekday of every day is the one Zeller's congruence gives its date |
| CronRules.EpochDay | src/schedule-service.ts:669-680 | day 0 is the first of January 1970 |
| CronParser.ParseField | src/schedule-service.ts:601-632 | a field is the union of the stepped ranges its segments denote, or the first segment's error |
| CronParser.AddSegment | src/schedule-service.ts:629 | stepping from lo by step up to hi adds exactly the members of that stepped range |
| CronParser.FieldInRange | src/schedule-service.ts:601-646 | an accepted field is a non-empty set within the field's range |
| CronWriting.WrittenField | src/schedule-service.ts:600-632 | a written field denotes exactly what its pieces cover: "*", a number, a span, each with an optional step from its first value |
| CronWriting.MonthNamesRead | src/schedule-service.ts:634-646 | month names read as their numbers in calendar order, in any letter case |
| CronWriting.DayNamesRead | src/schedule-service.ts:634-646 | and day names from Sunday on |
| CronWriting.CaseIsIgnored | src/schedule-service.ts:634-646 | every upper-case or mixed spelling of a lower-case name is read as that name |
| CronParser.ParseExpression | src/schedule-service.ts:573-598 | accepts exactly five parseable fields; the sets are what the fields denote, with day 7 as Sunday |
| CronScan.NextCronArithmetic | src/schedule-service.ts:669-691 | returns the least matching whole minute strictly after the instant, and fails exactly when no minute of the five-year window matches |
| CronRules.FirstIsEarlier | src/schedule-service.ts:648-658 | with both day fields restricted the first occurrence after any instant is the earlier of those of the two expressions that open one of them |
| CronRules.OneDayFieldGoverns | src/schedule-service.ts:648-658 | with one day field "*" the other governs alone |
| CronRules.UtcTakesEarlier | src/schedule-service.ts:669-691 | so the UTC scan answers the earlier of the two scans, and fails when both do |
| CronRules.ZoneTakesEarlier | src/schedule-service.ts:694-713 | and so does the zone scan |
| CronRules.ThirteenthOrFriday | src/schedule-service.ts:648-691 | after the epoch "0 0 13 * 5" first occurs on Friday, 2 January 1970 |
| CronScan.SkipDay | src/schedule-service.ts:682-684 | jumping over a day that does not match skips no occurrence |
| CronScan.SkipHour | src/schedule-service.ts:684-686 | jumping over an hour that does not match skips no occurrence |
| CronZone.WallToEpoch | src/schedule-service.ts:750-779 | at a constant whole-minute offset the probing loop gives the wall time's minute-aligned instant, or the seed's milliseconds late after a day overflow |
| CronZone.ScanDay | src/schedule-service.ts:702-709 | within one matching day the hour and minute loops return the first occurrence strictly inside the window |
| CronZone.NextCronInTimezone | src/schedule-service.ts:694-713 | for any seed alignment: the first occurrence inside the window, or failure exactly when there is none |
| CronZone.NothingOutOfReach | src/schedule-service.ts:706-711 | the one midnight the scan starts too late for, on the window's last millisecond, is never the first occurrence: an earlier one matches within the year before |
| CronZone.ZoneAgreesWithUtc | src/schedule-service.ts:669-713 | the zone scan succeeds exactly when the shifted UTC scan's answer lies in the window, and then both agree up to the offset |
| CronZone.ZoneAgreesADayInside | src/schedule-service.ts:694-713 | both scans agree whenever the next occurrence is at least a day inside the window |
| CronEngine.NextCronAfter | src/schedule-service.ts:661-666 | parse errors, unknown zones and missing occurrences are told apart; otherwise the next occurrence of the parsed expression |
| CronEngine.NextIsLater | src/schedule-service.ts:660-666 | an occurrence lies strictly after the instant it was asked for, in every zone |
| Schedules.ScheduleService.Create | src/schedule-service.ts:193-234 | refuses in the source's order; a new schedule is active with its first run set |
| Schedules.ScheduleService.Update | src/schedule-service.ts:241-273 | owner only; a cadence change recomputes the next run of an active schedule, exhausted limits pause at once |
| Schedules.ScheduleService.Delete | src/schedule-service.ts:276-282 | owner only; removes exactly that schedule |
| Schedules.ScheduleService.Pause | src/schedule-service.ts:288-305 | owner only and only from active |
| Schedules.ScheduleService.Resume | src/schedule-service.ts:312-330 | owner only and only from paused; recomputes the next run |
| Schedules.ScheduleService.RunOnce | src/schedule-service.ts:337-348 | records one run and leaves the cadence, refuses paused and spent schedules |
| Schedules.ScheduleService.RunTick | src/schedule-service.ts:359-373 | every schedule in creation order is paused, run or left alone; a failing cadence stops the scan there and leaves the rest untouched |
| Schedules.ExecuteKeeps | src/schedule-service.ts:378-429 | a run keeps: active iff next run set iff no pause noted, and the stored runs are the last twenty of all runs |
| Schedules.UpdateKeeps | src/schedule-service.ts:241-273 | an update keeps the same invariant |
| ScheduleLaws.CreatedAsAsked | src/schedule-service.ts:193-234 | a new schedule has the terms of its input, with a relative expiry counted from now, and its first run as the cadence says |
| ScheduleLaws.OnlyUpdatesChangeTerms | src/schedule-service.ts:241-273 | over a schedule's life only updates change its terms, in exactly the fields they name |
| ScheduleLaws.UpdateGoesThroughExactly | src/schedule-service.ts:241-273 | an update goes through exactly when no field it names is bad and a new cadence of an active schedule has a next run |
| ScheduleLaws.NextRunFollowsCadence | src/schedule-service.ts:193-429 | over any life an active schedule's next run is what its cadence gives after its creation, last tick run, cadence change or resumption, whichever came last |
| ScheduleLaws.EveryIsExact | src/schedule-service.ts:518-524 | for a plain interval that is the interval after the anchor, to the millisecond |
| Schedules.NoRunWhenSpent | src/schedule-service.ts:337-373 | no run starts once expiry or run cap holds or while paused, and each start counts once |
| ScheduleLaws.RunsWithinTerms | src/schedule-service.ts:337-429 | a run starts only before the expiry in force and while runs are left |
| ScheduleLaws.RunsAreBounded | src/schedule-service.ts:337-429 | a schedule that is never updated starts no more runs than it was given |
| ScheduleLaws.RunIsRecorded | src/schedule-service.ts:378-429 | a run is recorded with its due time, start and outcome; the last twenty are kept |
| Schedules.SpentIsPaused | src/schedule-service.ts:359-370 | a spent active schedule is paused by the next tick without a run |
| Schedules.EngineIsLater | src/schedule-service.ts:641-666 | a cadence that follows the cron engine for its registered zones only ever yields later instants |
| Schedules.SecondTickDoesNothing | src/schedule-service.ts:359-420 | with the cron engine as cadence a second tick at the same time leaves a schedule as it is |
| Schedules.SecondScanDoesNothing | src/schedule-service.ts:359-373 | and so does a second scan over the whole registry |
| Schedules.ConsecutiveTickRuns | src/schedule-service.ts:378-429 | two tick runs of an otherwise untouched `every n` schedule are at least n milliseconds apart |
| Schedules.LifeKeeps | src/schedule-service.ts:193-462 | over any life the invariant holds and the run history only grows |
| CanonicalJson.CanonicalTextDeterminesValue | plugins/fleet-agent/src/canonical-json.ts:32-51 | two serializable values print the same text exactly when they are equal with objects as maps and -0 as 0 |
| JsonReading.CanonicalTextSaysValue | plugins/fleet-agent/src/canonical-json.ts:32-51 | by the grammar of JSON the text says the value it was printed from, objects as maps, with all names in ascending order |
| JsonReading.TextReads | plugins/fleet-agent/src/canonical-json.ts:32-51 | literals, numerals, strings, brackets and separators read back, at every depth |
| JsonReading.CanonicalIsOrdered | plugins/fleet-agent/src/canonical-json.ts:44-48 | the names of every object stand in strictly ascending code-unit order |
| JsonReading.BeforeIsLexicographic | plugins/fleet-agent/src/canonical-json.ts:46 | which is decided at the first difference, or by the end of the shorter name |
| CanonicalJson.Readable | plugins/fleet-bus/src/fingerprint.ts:41-60 | unique readability: before any delimiter a canonical text fixes the value and where it ends |
| CanonicalJson.SameValueSameText | plugins/fleet-agent/src/canonical-json.ts:32-51 | equal values print alike, errors included |
| CanonicalJson.PropertyOrderIrrelevant | plugins/fleet-agent/src/canonical-json.ts:44-48 | any permutation of an object's properties prints the same text |
| CanonicalJson.SerializeFailsExactly | plugins/fleet-agent/src/canonical-json.ts:36-51 | serialization fails exactly on values that hold a non-finite number or something that is not JSON |
| NumberText.NumberTextInjective | plugins/fleet-agent/src/canonical-json.ts:40 | two finite numbers print alike exactly when they are numerically equal |
| NumeralValues.NumeralDenotesValue | plugins/fleet-agent/src/canonical-json.ts:40 | every finite number's numeral, read as a JSON number, has exactly its value and sign |
| JsonReading.StringIsWritten | plugins/fleet-agent/src/canonical-json.ts:42 | every string stands unit by unit: short escapes, lower-case hexadecimal for other control units and lone surrogates, all else as it is |
| StringText.QuoteRoundTrip | plugins/fleet-agent/src/canonical-json.ts:42 | a quoted string followed by any text reads back exactly, lone surrogates included |
| TaskTree.GoalQueryExact | plugins/fleet-tasks/src/service.ts:174-198 | an ancestry contains a goal exactly when parent links lead from the task to it |
| TaskTree.AncestryIsParentPath | plugins/fleet-tasks/src/service.ts:174-198 | the stored ancestry is the chain of parent links up to a root |
| TaskTree.AncestryAcyclic | plugins/fleet-tasks/src/service.ts:174-198 | no task is its own ancestor |
| TaskTree.OpenBelowByChild | plugins/fleet-tasks/src/service.ts:439-461 | the open subtree below a task is its open children and the open subtrees below them |
| TasksService.FleetTasks.Create | plugins/fleet-tasks/src/service.ts:163-203 | refuses blank titles, closed states and missing parents; else adds one task below its parent |
| TasksService.FleetTasks.AtomicClaim | plugins/fleet-tasks/src/store.ts:191-198 | wins exactly when the task is claimable and unassigned, and changes nothing otherwise |
| TasksService.FleetTasks.Claim | plugins/fleet-tasks/src/service.ts:212-229 | the three refusals, or a start with one lock for the agent |
| TasksService.FleetTasks.Update | plugins/fleet-tasks/src/service.ts:237-251 | token-guarded; only the patched fields of that task change |
| TasksService.FleetTasks.AutoCloseDescendants | plugins/fleet-tasks/src/service.ts:439-461 | the recursion closes exactly the open subtree, each task marked with its direct parent, and terminates |
| TasksService.FleetTasks.Complete | plugins/fleet-tasks/src/service.ts:262-284 | needs token, start and evidence; closes exactly the descendants joined by open tasks, leaves all others alone and returns the stored row, which waits for acceptance |
| TasksService.FleetTasks.Cancel | plugins/fleet-tasks/src/service.ts:291-313 | the same for cancellation, with evidence, assignee and lock gone |
| TasksService.FleetTasks.Escalate | plugins/fleet-tasks/src/service.ts:320-343 | needs a named owner and a next action |
| TasksService.FleetTasks.Accept | plugins/fleet-tasks/src/service.ts:355-391 | accepts or reopens by the contract's verdict; the answer is yes exactly when the task stays completed |
| TaskRecords.CreatedRow | plugins/fleet-tasks/src/service.ts:163-203 | a new row holds what the caller gave, with the defaults |
| TaskRecords.PatchedRow | plugins/fleet-tasks/src/service.ts:237-251 | an update sets the fields it names and no other |
| TaskRecords.UpdatesCompose | plugins/fleet-tasks/src/service.ts:237-251 | two updates in a row are one with both patches, the later fields winning |
| TaskRecords.CompletedRow | plugins/fleet-tasks/src/service.ts:262-284 | a completion waits for acceptance and notes evidence, submitter and time |
| TaskRecords.CancelledRow | plugins/fleet-tasks/src/service.ts:291-313 | a cancellation takes evidence, acceptance, assignee and lock away |
| TaskRecords.EscalatedRow | plugins/fleet-tasks/src/service.ts:320-343 | an escalation notes who has to do what and leaves the work alone |
| TaskRecords.VerdictRow | plugins/fleet-tasks/src/service.ts:355-391 | a verdict accepts in place, or rejects under the contract's metric and opens the task again |
| TaskRecords.AutoClosedRow | plugins/fleet-tasks/src/service.ts:439-461 | an auto-closed task is marked with its parent and keeps its evidence and acceptance |
| TaskRuns.RunKeeps | plugins/fleet-tasks/src/service.ts:163-461 | over any run: claimable tasks are unassigned and unlocked, started ones have one lock held by the assignee, cancelled ones neither, ancestry is the parent chain |
| TaskRuns.EvidenceStep | plugins/fleet-tasks/src/service.ts:262-284 | a verb keeps stored evidence non-empty exactly when it brings no NaN and no infinite result |
| TaskRuns.EvidenceStays | plugins/fleet-tasks/src/service.ts:262-391 | so over runs with finite results stored evidence is never empty |
| TaskRuns.OnlyLatestTokenAuthorizes | plugins/fleet-tasks/src/service.ts:429-436 | only the last winning token of a task authorizes update, complete or cancel |
| TaskRuns.ReleaseKillsToken | plugins/fleet-tasks/src/service.ts:291-391 | whatever releases a lock leaves its token dead |
| TaskRuns.DeadTokensStayDead | plugins/fleet-tasks/src/service.ts:429-436 | a dead token never authorizes anything again |
| TaskRuns.RunKeepsDistinct | plugins/fleet-tasks/src/service.ts:212-229 | no two tasks are ever locked under one token |
| TaskRuns.RaceHasOneWinner | plugins/fleet-tasks/src/store.ts:191-198 | of any racing claimants the first to reach a claimable task wins and nobody else |
| TaskRuns.OnlyRejectionReopens | plugins/fleet-tasks/src/service.ts:212-391 | a taken task becomes claimable again exactly by a failed accept |
| TaskRuns.NoSecondWin | plugins/fleet-tasks/src/service.ts:212-391 | between two wins of one task lies a rejection |
| Acceptance.AcceptedByLastWord | plugins/fleet-tasks/src/service.ts:262-391 | in every reachable table a task is accepted exactly when the last completion or `accept` of it was an `accept` that its evidence earned, and only completed tasks are |
| Acceptance.AcceptedByLastRound | plugins/fleet-watchdog/src/service.ts:264-409 | with the gate at work too: the last word of a verb or a full pass decides |
| TaskRuns.ReachableGoalQuery | plugins/fleet-tasks/src/service.ts:174-198 | in every reachable table a task's ancestry holds exactly its strict ancestors, never itself, along parent links |
| TaskRuns.ReachableGoalFilter | plugins/fleet-tasks/src/store.ts:127-151 | in every table reached with ids of the service's form the LIKE of the goal filter selects exactly the strict descendants |
| GoalQuery.GoalFilterExact | plugins/fleet-tasks/src/store.ts:138-141 | for ids of lower-case letters, digits and dashes the LIKE over the JSON text is membership |
| GoalPatterns.FilterAgreesExactly | plugins/fleet-tasks/src/store.ts:138-141 | whatever string the goal is, the LIKE agrees with membership on every ancestry of plain ids exactly when the goal is plain or cannot fit any of them |
| GoalPatterns.FittingGoalMatches | plugins/fleet-tasks/src/store.ts:138-141 | a goal of letters, digits, dashes, wildcards and commas that fit matches the plain ids it stands for |
| GoalPatterns.MatchingGoalFits | plugins/fleet-tasks/src/store.ts:138-141 | and every goal that matches some plain ancestry is of that form |
| GoalPatterns.WildcardGoalMatchesMore | plugins/fleet-tasks/src/store.ts:138-141 | a goal with `_` matches an id of the service's form that it is not |
| GoalPatterns.UpperCaseGoalMatchesMore | plugins/fleet-tasks/src/store.ts:138-141 | and so does an upper-case goal |
| GoalPatterns.CommaGoalMatchesMore | plugins/fleet-tasks/src/store.ts:138-141 | a goal of one comma selects every task with two ancestors or more |
| ArtifactContracts.RangeMeans | plugins/fleet-tasks/src/service.ts:517-552 | operator, spaces and numeral: numeric evidence passes exactly when it stands in that relation |
| ArtifactContracts.RangeOnReals | plugins/fleet-tasks/src/service.ts:517-552 | between real numbers the six operators are the usual relations |
| ArtifactContracts.PlainRangeMeans | plugins/fleet-tasks/src/service.ts:536-552 | a range without an operator names a value: numbers are compared as numbers, everything else as text, and absent evidence never passes |
| ArtifactContracts.ConvertedEvidence | plugins/fleet-tasks/src/service.ts:531-535 | flags count as one and zero, null as zero, texts as the host reads them |
| ArtifactContracts.OperatorReadsBack | plugins/fleet-tasks/src/service.ts:527-530 | the operator pattern reads every written range back, longer symbols first |
| ArtifactContracts.NoNumberNeverPasses | plugins/fleet-tasks/src/service.ts:531-535 | evidence that is no number passes no operator range |
| ArtifactContracts.StoredNullMeetsZero | plugins/fleet-tasks/src/service.ts:517-552 | a result that is no finite number counts as present, is stored as null and then meets the pass range "== 0" |
| WatchedTree.WatchedByAncestry | plugins/fleet-watchdog/src/service.ts:345-358 | the ancestry tests decide membership in the tree and in review subtrees |
| WatchedTree.SamePlacesSameLeaves | plugins/fleet-watchdog/src/service.ts:345-365 | the leaf set depends only on places and review roles |
| Watchdog.FleetWatchdog.ComputeLeaves | plugins/fleet-watchdog/src/service.ts:345-365 | exactly the tasks of the tree outside every review subtree that have no such child |
| Watchdog.FleetWatchdog.Watch | plugins/fleet-watchdog/src/service.ts:194-206 | an existing root is watched, its record kept if there is one, and gated at once; during a pass over it the answer is that it is in progress |
| Watchdog.FleetWatchdog.Unwatch | plugins/fleet-watchdog/src/service.ts:209-211 | removes exactly that record and tells whether it was there |
| Watchdog.FleetWatchdog.Verify | plugins/fleet-watchdog/src/service.ts:232-337 | the gate's answer, record and table; a call nested in a pass over the same tree changes no task and no record |
| Watchdog.FleetWatchdog.VerifyLeaf | plugins/fleet-watchdog/src/service.ts:370-409 | rejects exactly completed leaves whose evidence is missing, empty or fails, and changes no other task |
| Watchdog.FleetWatchdog.HandleReject | plugins/fleet-watchdog/src/service.ts:417-459 | one review task below the leaf and a claim by the routed agent, nothing else |
| Watchdog.FleetWatchdog.Observe | plugins/fleet-watchdog/src/service.ts:468-474 | an event runs the gate on the watched tree that holds its task; inside a pass over that tree it changes nothing |
| GateLaws.PassMeansSound | plugins/fleet-watchdog/src/service.ts:306-318 | after PASS every leaf is cancelled, or completed and accepted on satisfying evidence |
| GateLaws.RejectExactly | plugins/fleet-watchdog/src/service.ts:285-306 | REJECT exactly when some completed leaf's evidence is missing, empty or fails; those the judge fails too end reopened or claimed anew, all other leaves sound |
| GateLaws.FullEvidenceRejectsUnearned | plugins/fleet-watchdog/src/service.ts:377-396 | where stored evidence is not empty the gate and the judge reject the same leaves |
| GateLaws.PassAddsReviews | plugins/fleet-watchdog/src/service.ts:431-443 | a pass adds exactly one review task below each false leaf |
| GateLaws.PassKeepsTable | plugins/fleet-watchdog/src/service.ts:264-337 | a pass keeps the task service's own invariants |
| GateLaws.SecondPassSuppressed | plugins/fleet-watchdog/src/service.ts:253-270 | a second unforced call within the window of a PASS changes nothing |
| GateLaws.FalseLeafRejectedUnlessRepeated | plugins/fleet-watchdog/src/service.ts:253-306 | on a rested tree a false leaf is rejected unless the record holds the same stop, from the last full pass of either verdict, and the last PASS of any stop is less than a window ago |
| GateLaws.RecordIsHistory | plugins/fleet-watchdog/src/service.ts:247-312 | over any run of verbs and calls the record holds stop, verdict and time of the last full pass, and the times of the last PASS and the last REJECT |
| GateLaws.FalseLeafRejectedByHistory | plugins/fleet-watchdog/src/service.ts:253-306 | after any run a false leaf is rejected unless the last full pass of either verdict saw the same stop, a PASS is less than a window ago and the call is unforced; then the call is suppressed |
| GateLaws.PassIsRecorded | plugins/fleet-watchdog/src/service.ts:285-306 | a PASS leaves the tree at rest and its record with the stop and the time of that PASS |
| GateLaws.SameStopSuppressed | plugins/fleet-watchdog/src/service.ts:253-270 | an unforced call on any table with the stop of the last full pass, less than a window after the last PASS, is suppressed and changes nothing |
| GateLaws.UnrestedKeepsStop | plugins/fleet-watchdog/src/service.ts:247-256 | calls while the tree does not rest leave stop and time on the record |
| GateLaws.RejectIsRecorded | plugins/fleet-watchdog/src/service.ts:274-306 | a REJECT puts its own stop on the record and leaves the time of the last PASS |
| GateLaws.ThreeVerbsGoThrough | plugins/fleet-tasks/src/service.ts:212-391 | on any completed leaf with a contract the three verbs succeed with evidence that fails it |
| GateLaws.FalseDoneSlipsThrough | plugins/fleet-watchdog/src/service.ts:253-270 | accept with a failing override, claim and complete bring a completed leaf back with failing evidence to the stop on record, and the gate suppresses the call |
| GateLaws.RejectedStopReturns | plugins/fleet-watchdog/src/service.ts:253-306 | a rejected leaf completed again on false evidence brings the tree to rest on the stop of the REJECT |
| GateLaws.RejectedStopSlipsThrough | plugins/fleet-watchdog/src/service.ts:253-306 | and with a PASS of any other stop less than a window ago the gate suppresses the next unforced call and leaves the false leaf completed |
| GateLaws.RejectAwakens | plugins/fleet-watchdog/src/service.ts:247-256 | right after a REJECT the tree does not rest exactly when the judge failed a completed leaf, and then the record stays rejected |
| GateLaws.RoundsKeepLeaves | plugins/fleet-watchdog/src/service.ts:345-365 | any number of rounds of work and rejection leaves the leaf set as it was |
| GateLaws.RejectionSticks | plugins/fleet-watchdog/src/service.ts:247-256 | only a PASS ends a rejection |
| Collisions.FleetExtras.RecordWrite | plugins/fleet-extras/src/service.ts:293-315 | ledger, dedupe table and firings after one write; the kept list is the last fifty firings |
| Collisions.FleetExtras.AppendWrite | plugins/fleet-extras/src/service.ts:317-325 | the path's ledger is pruned by the window and bounded to its last writes |
| CollisionRuns.LedgerExact | plugins/fleet-extras/src/service.ts:317-325 | with a clock that never runs back the ledger is the bounded window over the full history |
| CollisionRuns.FiringsAreReal | plugins/fleet-extras/src/service.ts:298-309 | each firing has a real earlier write by another agent inside the window |
| CollisionKeys.FiringMeans | plugins/fleet-extras/src/service.ts:298-309 | a firing stands for two recorded writes to its file by two agents at most a window apart, the first not by the mechanism itself |
| CollisionKeys.CollisionsAreFired | plugins/fleet-extras/src/service.ts:293-325 | unless two collisions of the run share a key, each visible collision has a firing for its pair less than one window old |
| CollisionKeys.PairIsFired | plugins/fleet-extras/src/service.ts:293-325 | and any such pair the clock has not cut off, on a path within its bound, is fired while keys are clear |
| CollisionRuns.FiringsSpaced | plugins/fleet-extras/src/service.ts:303-308 | firings of one file and unordered pair are a window apart |
| CollisionKeys.KeyDeterminesPair | plugins/fleet-extras/src/service.ts:304 | between names without colons the dedupe key is injective up to the order of the pair |
| CollisionKeys.PlainNamesAreClear | plugins/fleet-extras/src/service.ts:304 | among names without colons no two collisions share a key |
| CollisionKeys.ClashSwallowsCollision | plugins/fleet-extras/src/service.ts:303-308 | when two pairs share a key, on one file or two, the second collision is fired exactly when it is the same collision |
| CollisionKeys.AmbiguousKeyLosesCollision | plugins/fleet-extras/src/service.ts:303-308 | names with colons whose collision is lost that way, on two files and on one |
| CollisionKeys.DetectionCompleteExactly | plugins/fleet-extras/src/service.ts:293-325 | over given files and agents every visible collision is fired in every run exactly when no key stands for two collisions |
| IsoTime.TimeRoundTrip | plugins/fleet-teams/src/service.ts:819-821 | the ISO text of an instant parses back to the same millisecond |
| MemoryText.LineRoundTrip | plugins/fleet-teams/src/service.ts:814-816 | a post line parses back to its post exactly when actor and body are legible |
| MemoryText.BodyPieces | plugins/fleet-teams/src/service.ts:823-826 | each run of line breaks and tabs in a body is written as " / ", everything else is kept |
| MemoryText.NoteLineDetermines | plugins/fleet-teams/src/service.ts:615-635 | a note line tells when, by whom and what: different notes have different lines |
| RoomMemory.MemoryFile.EnsureMemoryFile | plugins/fleet-teams/src/service.ts:579-586 | a missing file gets the initial content, an existing one stays |
| RoomMemory.MemoryFile.AppendTimeline | plugins/fleet-teams/src/service.ts:605-612 | the file after a post |
| RoomMemory.MemoryFile.AppendSectionNote | plugins/fleet-teams/src/service.ts:615-635 | the file after a note, or the missing section's error; NoteLaws says where the note stands |
| RoomMemory.MemoryFile.ParseTimeline | plugins/fleet-teams/src/service.ts:638-661 | the posts of the timeline section, in order |
| MemoryLaws.PostIsAdded | plugins/fleet-teams/src/service.ts:605-661 | for every actor and body, parsing after a post gives the old posts and the new one exactly when it is legible |
| MemoryLaws.PostSurvivesNext | plugins/fleet-teams/src/service.ts:605-612 | a post survives the next post exactly when its body leaves no white space at its line's end |
| MemoryLaws.NoteKeepsPosts | plugins/fleet-teams/src/service.ts:615-635 | a note in any of the four sections leaves the parsed posts unchanged and the file well formed |
| NoteLaws.NoteIsWritten | plugins/fleet-teams/src/service.ts:615-635 | a note into a kept file stands in its own section, over the placeholder or before all other lines; other sections and all other inked lines stay |
| NoteLaws.PostIsWritten | plugins/fleet-teams/src/service.ts:605-612 | a post stands at the end of the timeline and changes no other section |
| NoteLaws.SectionHistory | plugins/fleet-teams/src/service.ts:605-635 | over any mix of posts and notes each section holds what the edits, one by one, make of it |
| MemoryLaws.InitialKept | plugins/fleet-teams/src/service.ts:790-811 | a fresh file is well formed and holds no posts |
| MemoryLaws.FirstPost | plugins/fleet-teams/src/service.ts:605-610 | a post into a missing file creates it with that post alone |
| MemoryLaws.RoomHistory | plugins/fleet-teams/src/service.ts:605-661 | after any mix of posts and notes the file holds exactly the posts made, in order |
| NoteLaws.RoomSections | plugins/fleet-teams/src/service.ts:605-635 | from its creation on a room's sections hold exactly the notes written into them, the newest on top, and the timeline the posts below them in order |
| Teams.MembersAndScopes | plugins/fleet-teams/src/service.ts:224-330 | over any run room members are distinct members of the team and the scope index is the exact inverse of the scopes |
| Teams.OutsidersHoldNothing | plugins/fleet-teams/src/service.ts:354-368 | who is not in the team is in none of its rooms and holds no grant |
| TeamLaws.TeamMembersExactly | plugins/fleet-teams/src/service.ts:196-249 | after any step a team holds who it held, but for the one who leaves, and the one who joins or founds it |
| TeamLaws.RoomMembersExactly | plugins/fleet-teams/src/service.ts:236-330 | after any step a room holds who it held, but for those leaving it or its team, and the one let in by its grants |
| TeamLaws.GrantedExactly | plugins/fleet-teams/src/service.ts:354-368 | a grant holds for team members by the agent's override, else the room's mask, else the team's, grant by grant |
| TeamLaws.EnteredExactly | plugins/fleet-teams/src/service.ts:306-321 | entering takes team membership and the join grant and adds that agent alone |
| TeamLaws.TeamMaskGoverns | plugins/fleet-teams/src/service.ts:379-389 | a new team mask governs exactly the rooms without their own mask and agents without an override |
| TeamLaws.RoomGrantsGovern | plugins/fleet-teams/src/service.ts:395-418 | new grants of a room win where they speak, earlier overrides stay where they do not |
| TeamLaws.NewRoomIs | plugins/fleet-teams/src/service.ts:257-285 | a new room is empty, without overrides, open as its mask or its team's says |
| TeamLaws.NewTeamIs | plugins/fleet-teams/src/service.ts:196-212 | a new team has its creator alone and is open as its mask says, or fully |
| Teams.LeavingTeamLeavesRooms | plugins/fleet-teams/src/service.ts:236-249 | leaving a team leaves exactly its rooms |
| Teams.ScopeResolvesBack | plugins/fleet-teams/src/service.ts:499-521 | a room's scope resolves back to it exactly when non-empty and not beginning with "team:" |
| TeamLaws.ScopeLeadsExactly | plugins/fleet-teams/src/service.ts:499-521 | scopes no room has for its own lead by prefix and id to that room or team, or nowhere |
| Teams.FleetTeams.CreateNewTeam | plugins/fleet-teams/src/service.ts:196-212 | a team under a new id with its creator as only member |
| Teams.FleetTeams.Join | plugins/fleet-teams/src/service.ts:224-233 | joining is idempotent |
| Teams.FleetTeams.Leave | plugins/fleet-teams/src/service.ts:236-249 | the loop over the rooms removes the agent from each room of the team |
| Teams.FleetTeams.CreateNewRoom | plugins/fleet-teams/src/service.ts:257-285 | team members only, unique scope; the id counter moves even when the scope is taken |
| Teams.FleetTeams.EnterRoom | plugins/fleet-teams/src/service.ts:306-321 | team membership and join grant first |
| Teams.FleetTeams.QuitRoom | plugins/fleet-teams/src/service.ts:324-329 | tells whether the agent was a member |
| Teams.FleetTeams.SetTeamDefaultGrants | plugins/fleet-teams/src/service.ts:379-389 | members only; replaces the team's mask |
| Teams.FleetTeams.SetGrantsOfRoom | plugins/fleet-teams/src/service.ts:395-418 | members only; overrides merge field by field |
| WakeQueue.EntryIdsUnique | plugins/fleet-supervisor/src/service.ts:239 | `kind-serial` ids are unique whatever the kinds contain |
| Supervisor.FleetSupervisor.EnqueueWake | plugins/fleet-supervisor/src/service.ts:234-258 | adds one pending entry under a new id |
| WakeLaws.EnqueuedIsWoken | plugins/fleet-supervisor/src/service.ts:234-258 | a new wake reaches its agent, with its kind and context, exactly from its due time on |
| Supervisor.FleetSupervisor.WakeScan | plugins/fleet-supervisor/src/service.ts:481-574 | entry by entry what a scan does; at most one delivery per agent, with exactly its due pending entries |
| WakeLaws.WokenExactly | plugins/fleet-supervisor/src/service.ts:481-574 | a scan carries a wake to its agent, in exactly one prompt, exactly when it is due or its block is over and the agent is enabled, within budget and reachable |
| WakeLaws.NotWoken | plugins/fleet-supervisor/src/service.ts:481-574 | else it is blocked until the retry time when over budget, and stays pending otherwise |
| WakeLaws.UnripeStays | plugins/fleet-supervisor/src/service.ts:481-574 | a wake not yet due is left alone, but for a block whose time has come, which is lifted |
| WakeLaws.BlockedUntilRetry | plugins/fleet-supervisor/src/service.ts:481-574 | a blocked wake comes back exactly from its retry time on |
| Supervisor.FleetSupervisor.TakeoverScan | plugins/fleet-supervisor/src/service.ts:585-619 | each open wake of a stalled agent goes to the successor once, however successors chain; WakeLaws says who holds it then |
| WakeLaws.TakeoverHandsOver | plugins/fleet-supervisor/src/service.ts:585-619 | every open wake of a stalled agent goes to its successor, or stays, due at once; no other entry changes |
| WakeLaws.SuccessorIsWoken | plugins/fleet-supervisor/src/service.ts:585-619 | and the next scan carries a pending one to the successor exactly when its retry time is past and the successor can be woken |
| Supervisor.FleetSupervisor.OrphanScan | plugins/fleet-supervisor/src/service.ts:628-658 | exactly the timed-out records without a sign of life make their entries pending |
| WakeLaws.RevivedExactly | plugins/fleet-supervisor/src/service.ts:628-658 | a tracked wake is revived exactly when its window is over without a sign of life since the wake |
| WakeLaws.OrphanIsWokenAgain | plugins/fleet-supervisor/src/service.ts:628-658 | and the next scan wakes its agent again |
| Supervisor.FleetSupervisor.CompleteWake | plugins/fleet-supervisor/src/service.ts:286-294 | completes that entry alone and stops tracking it |
| Supervisor.FleetSupervisor.CompleteAgent | plugins/fleet-supervisor/src/service.ts:276-284 | completes exactly the agent's tracked wakes |
| Supervisor.GroupByAgent | plugins/fleet-supervisor/src/service.ts:808-816 | one group per agent with due entries, members in queue order |
| WakeRuns.RunKeeps | plugins/fleet-supervisor/src/service.ts:234-658 | over any run each tracking record points at a woken entry of the same agent and wake time |
| WakeRuns.EntriesNeverLost | plugins/fleet-supervisor/src/service.ts:234-658 | entries keep place, id, kind and context |
| WakeRuns.CompletedStays | plugins/fleet-supervisor/src/service.ts:585-658 | completed wakes are never revived and never delivered |
| WakeRuns.TakeoverStrandsWoken | plugins/fleet-supervisor/src/service.ts:602-609 | a taken-over wake is stranded exactly when it had been delivered |
| WakeRuns.StrandedExactly | plugins/fleet-supervisor/src/service.ts:602-658 | an event strands a wake exactly when it takes over a delivered one or drops the timed-out record of an agent that showed a sign of life |
| WakeRuns.StrandedForever | plugins/fleet-supervisor/src/service.ts:602-658 | a stranded wake is never delivered again |
| MergeQueue.StepKeeps | plugins/fleet-supervisor/src/service.ts:398-445 | every step of every scan keeps the history of every entry in order |
| MergeQueue.EveryInterleaving | plugins/fleet-supervisor/src/service.ts:398-445 | one scan per entry at most; merged means every gate ok; failed means isolated with exactly one fix wake for a named owner |
| MergeProgress.EndOfQueueLeavesNonePending | plugins/fleet-supervisor/src/service.ts:398-445 | in any interleaving, when a scan reaches the end of the queue no entry is pending |
| MergeProgress.StartsAtTheFront | plugins/fleet-supervisor/src/service.ts:398-445 | a scan starts at the first entry of the queue |
| MergeProgress.ScanEndsExactly | plugins/fleet-supervisor/src/service.ts:398-445 | a scan ends exactly at the end of the queue, by a throw, or by the failure of an entry nobody owns |
| MergeQueue.OneScanPerEntry | plugins/fleet-supervisor/src/service.ts:400-403 | never two scans wait on one entry |
| MergeQueue.VerdictStays | plugins/fleet-supervisor/src/service.ts:400-443 | verdicts are final |
| MergeQueue.ThrowAbandons | plugins/fleet-supervisor/src/service.ts:406-411 | a gate that throws leaves its entry verifying with no scan waiting on it |
| MergeQueue.OnlyThrowAbandons | plugins/fleet-supervisor/src/service.ts:398-445 | no step but a throw of the entry's own gate leaves it behind |
| MergeQueue.AbandonedForever | plugins/fleet-supervisor/src/service.ts:400-417 | an entry whose gate threw is never verified again |
| MergeQueue.LeftBehindExactly | plugins/fleet-supervisor/src/service.ts:398-445 | in any interleaving an entry ends verifying with no scan on it exactly when a gate of it threw |
| Budgets.ScopeKeysUnique | plugins/fleet-budget/src/types.ts:50-56 | one store key per scope |
| Budgets.FleetBudget.SetBudget | plugins/fleet-budget/src/service.ts:171-214 | accepted exactly for positive caps and ordered thresholds; spend and flags of an existing budget stay |
| Budgets.ConfiguredIs | plugins/fleet-budget/src/service.ts:171-214 | cap, unit and thresholds as given or by default; spend, notices and creation time of an existing budget stay |
| Budgets.FleetBudget.RecordCost | plugins/fleet-budget/src/service.ts:229-253 | lands in exactly its scopes; every spend stays the sum of the ledger since the period began, no crossing is published twice in a period |
| Budgets.FleetBudget.Reset | plugins/fleet-budget/src/service.ts:260-274 | starts a new period |
| Budgets.FleetBudget.CheckWake | plugins/fleet-budget/src/service.ts:285-293 | the worst level of the agent's and the global budget |
| Budgets.RecordKeeps | plugins/fleet-budget/src/service.ts:298-342 | one record keeps the period's sums and at most one warning and one escalation |
| Budgets.CrossingIsRise | plugins/fleet-budget/src/service.ts:298-342 | while flags and level agree a record publishes exactly the rise of the level |
| Budgets.FlagsStayMatched | plugins/fleet-budget/src/service.ts:260-342 | between changes of configuration the flags are set exactly when the level is non-ok and critical |
| Budgets.ReconfiguringKeepsFlags | plugins/fleet-budget/src/service.ts:187-197 | reconfiguring keeps notices and level in step exactly when the level stays |
| Budgets.RisesPublishedExactly | plugins/fleet-budget/src/service.ts:298-342 | every record of every run publishes exactly the rise of the level if and only if no escalation notice is out below critical and no warning notice is out while a warning is still to come |
| Budgets.NeverWarnsExactly | plugins/fleet-budget/src/service.ts:298-342 | no run of records publishes a warning if and only if the level has left normal, a warning notice is out, or equal thresholds make every rise an escalation |
| Budgets.LoweredCapNeverWarns | plugins/fleet-budget/src/service.ts:187-197 | a budget whose level has left normal never warns until it is reset or reconfigured |
| Budgets.LoweredCapInput | plugins/fleet-budget/src/service.ts:187-197 | a cap of 100 lowered to 60 over a spend of 40 is at warning level and never warns |
| Budgets.RaisedCapInput | plugins/fleet-budget/src/service.ts:187-197 | a cap raised after its warning rises to warning level again and publishes nothing |
| Registry.FleetRegistry.RegisterAgent | src/registry.ts:79-98 | refuses known ids; else a first heartbeat in an open ledger |
| Registry.FleetRegistry.RecordHeartbeat | src/registry.ts:140-152 | a stalled agent resumes first, an offline one stays offline |
| Registry.FleetRegistry.RunTick | src/registry.ts:160-177 | every agent scanned once, exactly the stalling and the resuming ones reported |
| Registry.FleetRegistry.SendMessage | src/registry.ts:184-210 | both ledgers record the message, and its delivery when the hook took it |
| Registry.FleetRegistry.MarkOffline | src/registry.ts:120-124 | only the status changes |
| Registry.FleetRegistry.UnregisterAgent | src/registry.ts:114-117 | entry and ledger go together |
| Registry.LifeKeeps | src/registry.ts:79-263 | over any life: contiguous numbers, counted heartbeats, stalls and resumes that alternate and agree with the status |
| Registry.TickNeverResumes | src/registry.ts:166-176 | with a clock that never runs back a tick never resumes an agent |
| RegistryLaws.StallsExactly | src/registry.ts:160-177 | a tick stalls exactly the active agents silent since their last heartbeat for longer than the threshold, and records for how long |
| RegistryLaws.BeatResumes | src/registry.ts:140-152 | a heartbeat makes a stalled agent active and records its silence; an offline one stays offline |
| RegistryLaws.MessageIsBooked | src/registry.ts:184-210 | a message is booked as sent and as received, and once more in both when it was delivered |

## Left out

- HTTP, HTML, CLI, MCP and session mirroring: input, output and presentation only.
- File, SQLite and JSON persistence: stores are maps and sequences; one guarded SQL statement is one step.
- Ed25519, SHA-256 and UUIDs: signatures are not modelled, a fingerprint is the value it hashes, ids and tokens are fresh by assumption.
- Event publishing and observers: events are not modelled, except that a task event runs the gate of the watchdog, also during its own pass.
- Overlapping watched trees: the gate assumes that no watched tree lies inside another that shares its tasks.
- Order of equal rows: lists the SQL store returns are taken in any order, which no modelled result depends on.
- Clock readings: each verb reads the clock once, except a recorded write, which reads it again when it prunes.
- Untargeted `claimWake` and its ranking: adds milliseconds to weights and picks a minimum; easy next to the rest.
- NextCronInTimezone: only zones with a constant whole-minute offset and instants from 1970 on; daylight saving gaps depend on host zone data.
- NextCronAfter: the same restriction; Date's range of 100 million days is not modelled, instants are unbounded integers.
- SecondTickDoesNothing and SecondScanDoesNothing: ticks from 1970 on, where the cron engine is modelled.
- FalseDoneSlipsThrough and RejectedStopSlipsThrough: failing evidence with a finite result; a result stored as null is judged as null.
- Schedules.ScheduleService.RunTick: the registry lookup and message delivery are a parameter that says whether the prompt was delivered.
- Number conversion in artifact contracts: the host's `Number` and number printing are parameters; arrays and objects as results are not modelled.
- Goal filter: goals are strings of whole characters, without lone surrogates; ids of the stored ancestries are plain in the exact condition.
- Reason texts of verdicts and error messages: errors are told apart by kind only.
- AppendTimeline: instants in the years 0 to 9999, where the ISO text has a four-digit year.
- ParseTimeline: texts in the time field that are not an ISO instant go to a host parameter; the post id derived from them is not modelled.
- WakeScan: one atomic step per scan; the suspension at skill loading, prompts, workspaces and the claim handoff are not modelled.
- MergeQueue is a state machine over values rather than a class, because its scans suspend at every gate; gates that change the entry or the queue themselves are not modelled.
- Gate registration, digests, the silent-run watchdog and ready-queue views: easy members next to the rest.
- Restart of the wake counter and read-modify-write by several processes: the code does not protect these.
- RecordCost: real numbers instead of doubles, so rounding of sums is not modelled.
- SendMessage: a receiver hook that re-enters the registry is not modelled; `waitForAgent` is a polling loop and left out.
- fleet-policy, fleet-bus filters, fleet-board feeds, settings overlays, roster and org chart: real but easy next to the above.
