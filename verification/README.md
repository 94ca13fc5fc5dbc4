# SubLane

SubLane is a gateway that shares upstream accounts among the members of a workspace. This project models
its state machines and proves what they keep. Every model is a set of functions on states, which say what
one transaction or one locked section does; classes whose methods do the same step by step and are tied to
those functions; and lemmas over all inputs and all runs.

* **Civil time** (`CivilDates`, `Calendar`): a zone is known only by the answers of the standard library, and
  the midnight it proposes is arbitrary. Day starts, reset instants and accounting windows.
* **Allowances** (`Allowances`, `Ledger`, `Admission`, `LedgerSteps`, `BudgetBounds`, `GrantedLimits`,
  `EntryLifecycle`, `UsageReports`, `Settlement`): what a rule grants, reservations against several
  simultaneous windows, shared and per-member budgets, edits during a run, settlement of what upstreams report,
  corrections, recovery and retries after uncertain commits.
* **Leases** (`LeaseState`, `LeaseRecords`, `LeaseConservation`, `LeaseEpochs`, `ResumedAccounts`,
  `StoredEpochs`, `PastLifecycles`, `Cooldowns`, `Leases`): account and model limits, open leases, members,
  queues, resumes, reloads and late completions.
* **Selection** (`Routing`, `Availability`, `Rotation`, `Affinity`): tiers, the observer that must agree,
  rotation and sticky conversations.
* **Redemption** (`ResetDays`, `Redemption`, `ResetService`): durable runs that reserve, call, settle and replay.
* **Smaller machines**: token refresh (`Refresh`), rebuilt histories (`Conversations`) and the quota cache
  (`QuotaCache`).

`Sums` and `Common` hold shared definitions. `dafny verify dfyconfig.toml` checks the whole project.

What a run may do is stated by a predicate such as `CanStep`: the order in which a request calls the gateway,
keys that do not repeat, a clock that does not go back where that is needed. Instants are integers (seconds,
milliseconds where the program uses them). A write may be stored, be lost, or be stored and report failure.
The tables are values, each query is a function of them as `internal/storage/queries` writes it, and a
transaction is atomic. Pointers that several holders share (a model's runtime state, a cache entry) are
identifiers into a table of objects, so that a holder can keep an object the published table no longer names.

Some properties turned out to hold only under a condition. Each is stated with it:

* The windows that are computed follow the clock iff it never goes back across a reset and accepted proposals
  enter their dates from before (`Calendar.WindowsFollowTheClockIff`); for daily resets at midnight they are the
  civil dates iff dates never go back (`Calendar.MidnightWindowsAreDatesIff`).
* An admitted request settles iff it is charged no more cached tokens than input, which the counts an upstream
  reports do not ensure (`UsageReports.ReportedSettlesIffCachedFits`, `UsageReports.CachedAloneIsRefused`);
  otherwise it keeps its member from any further request until a restart
  (`Settlement.UncountableBlocksItsMember`).
* A counted request is counted in the statistics again iff a retry finds it waiting with its record deleted by
  retention (`Settlement.CountedAgainIff`, `Settlement.PrunedRecordIsCountedTwice`).
* The daily redemption limit holds over all runs iff the bounds computed for the day leave out none of it
  (`Redemption.LimitHoldsIffDaysAreCovered`, `Redemption.SkippedDateBreaksTheLimit`).
* The observer of a pool agrees with selection on an account, whatever the state of its models, iff memory has
  the revision of the account's row (`Availability.ObserverAgreesOnAccountIff`), which a resume that lands but
  reports failure breaks (`Availability.ObserverCanMissALimit`).
* Late results of requests opened before a resume change nothing iff it reported success
  (`ResumedAccounts.ResumedEpochIgnoresLateResults`). After one that lands but reports failure they can take the
  account's row back to its old epoch, and with it lift limits of the new one
  (`StoredEpochs.FinishKeepsEpochsIff`, `StoredEpochs.LateResultReopensTheModel`). A limited model therefore stays
  closed under the results of others iff memory has the revision of the row, or they are not of the revision in
  memory (`Cooldowns.ResultsLeaveCoolingIff`, `Cooldowns.LimitedModelStaysClosed`).
* A new lifecycle shuts late results out of the account's models under the same condition
  (`PastLifecycles.NewLifecycleIgnoresLateModelResultsIff`), and out of the account itself iff it was resumed
  (`PastLifecycles.LateResultReachesAccountIff`, `PastLifecycles.LateLimitClosesTheNewLifecycle`).
* A cached quota equals the committed row after a write that lands but reports failure iff nothing else was to be
  saved (`QuotaCache.LandedPollBreaksCoherenceIff`, `QuotaCache.LandedResponseBreaksCoherenceIff`,
  `QuotaCache.LandedResponseIsForgotten`).
* A response brings no unknown window into a quota iff no two of its windows share kind and reset
  (`QuotaCache.StrangersEnterIffRepeated`).

## Model

| member | source | states |
|---|---|---|
| `CivilDates.MonthStartsIncrease` | internal/allocations/calendar.go:66-79 | later months start no earlier, so months do not overlap |
| `CivilDates.MonthOfIsUnique` | internal/allocations/calendar.go:65-69 | every civil date lies in exactly one month |
| `CivilDates.MonthStartIsGregorian` | internal/allocations/calendar.go:65-79 | every month of every year starts on its day of the Gregorian calendar, given by 365 days a year, the leap days by 4, 100 and 400 and a table of months |
| `Calendar.DayStart` | internal/timezone/calendar.go:6-27 | the computed start is the guess where the guard accepts it, else the least of the instants the bisection separates; under advancing dates it is the first instant whose civil date reaches the target, whatever midnight the library proposes |
| `Calendar.DayStartsExistIffDatesAdvance` | internal/timezone/calendar.go:5-27 | a correct start exists for every civil date iff the dates of the zone never go backwards |
| `Calendar.FirstInstantSplits` | internal/timezone/calendar.go:5-27 | the first instant of a date separates all earlier dates from that date and all later ones |
| `Calendar.WallTime` | internal/allocations/calendar.go:94-116 | in any zone the walk over stretches ends and returns the least instant between the two computed day starts whose clock is at or past the minute, or else the next start; under advancing dates a skipped time gives the next instant there is, a repeated one its first occurrence |
| `Calendar.Window` | internal/allocations/calendar.go:64-92 | in any zone and for any proposal the pair of computed resets around the instant; under advancing dates the pair of true ones |
| `Calendar.ResetInsidePeriod` | internal/allocations/calendar.go:83-92 | a reset falls inside its own day or month, short months included |
| `Calendar.ResetsOrdered` | internal/allocations/calendar.go:83-92 | resets of later periods are never earlier |
| `Calendar.WindowsTileTime` | internal/allocations/calendar.go:64-92 | a window holds its instant, is the window of each of its instants, and is followed and preceded without gap or overlap |
| `Calendar.WindowsBeginOnTheChosenDay` | internal/allocations/calendar.go:64-116 | the computed window holds its instant, and begins and ends when the clock first shows the chosen minute of two consecutive dates, or of the chosen day, or else the last, of two consecutive Gregorian months |
| `Calendar.WindowsFollowTheClockIff` | internal/allocations/calendar.go:64-116 | for every period, minute and proposal of midnight: the computed windows hold exactly the instants at which the clock shows the same resets as past, iff the clock never goes back across a reset and each accepted proposal for a reset date enters it from an earlier date, or is overtaken by a start of the next date that does; the second always holds but for monthly resets in the first minute of a date in a zone that enters a date again there |
| `Calendar.MidnightWindowsAreDatesIff` | internal/allocations/calendar.go:64-81 | the computed windows of daily resets at midnight are the civil dates iff the dates of the zone never go back |
| `Calendar.DailyWindowCanMissItsInstant` | internal/allocations/calendar.go:64-81 | a zone that falls back across midnight, and an instant after the end of the daily window computed for it |
| `Calendar.MonthlyMidnightNeedsNoReentry` | internal/allocations/calendar.go:64-116 | a zone that enters the first of a month again in its first minute: its clock never goes back across a monthly reset, yet the windows computed for one proposal do not follow it |
| `Allowances.RatioLimitsStayWithinTotal` | internal/allocations/allocations.go:220-231 | the rounded-down member limits of a ratio rule never exceed the shared total together |
| `Allowances.StoredRatesCharge` | internal/allocations/allocations.go:689-708 | a stored price charges every countable request its exact cost rounded up, never zero for a positive cost, within the ledger |
| `Allowances.EffectiveWindows` | internal/allocations/calendar.go:133-147 | the loop builds the windows in force: one per condition from the anchor, or the civil window cut at the anchor |
| `Allowances.DurationWindowsTile` | internal/allocations/calendar.go:125-131 | windows of one length from one anchor tile the time after it |
| `Allowances.RevisionWindowsTile` | internal/allocations/calendar.go:133-147 | each window of a revision holds the instant it was computed for and stays the window of all its instants |
| `Admission.Accounting.Entries` | internal/allocations/accounting.go:57-90 | the cached wide read returns the rows of one range covering every limited window, refuses beyond 4096 rows, and keeps the snapshot true to the tables |
| `Admission.Accounting.Capture` | internal/allocations/accounting.go:92-106 | the cached configuration of a revision is the one stored for it |
| `Admission.Accounting.Reservations` | internal/allocations/accounting.go:108-141 | active count and held amount of a window, computed from the snapshot, equal a direct query of that window |
| `Admission.Accounting.Member` | internal/allocations/accounting.go:103-106 | a member window is reported with the limit, usage, count, held amount, room and risk that the tables give it |
| `Admission.Accounting.Group` | internal/allocations/accounting.go:143-159 | the cached shared usage equals a direct query of the window |
| `Admission.WideReadServesWindow` | internal/allocations/accounting.go:57-141 | one wide read filtered to a window counts and holds exactly what a read of that window alone would |
| `Admission.JudgeMember` | internal/allocations/runtime.go:145-173 | the loop over windows with its cached snapshot decides what the window-by-window definition over the tables decides |
| `Admission.Check` | internal/allocations/runtime.go:133-175 | the verdict, in order: unavailable, unpriced, quota in any window, risk in any window, admitted |
| `Admission.Labels` | internal/allocations/report.go:100-135 | the labels reported for a member are those the tables give each window |
| `Admission.LabelsDecideAdmission` | internal/allocations/report.go:100-135 | the labels decide admission: any spent window refuses for quota, else any window at risk for risk, else the request is admitted |
| `LedgerSteps.Store.Current` | internal/allocations/allocations.go:261-269 | the revision found is the one in force: latest effective, last written on a tie |
| `LedgerSteps.Store.RetainedWindow` | internal/allocations/runtime.go:25-35 | the loop finds the window that ends last, the first of them on a tie: the span an entry is retained for |
| `LedgerSteps.Store.Begin` | internal/allocations/runtime.go:184-194 | an entry is added iff the check admits, with the revision in force and its window; otherwise nothing changes |
| `LedgerSteps.Store.Finish` | internal/allocations/runtime.go:203-250 | exactly the named entry changes, to what settlement makes of it, or nothing |
| `LedgerSteps.Store.Settle` | internal/allocations/runtime.go:251-279 | a correction by hand leaves at most one entry changed, settled and marked as manual |
| `LedgerSteps.Store.Recover` | internal/storage/queries/allocations.sql:77-80 | recovery turns every active entry into a pending one and touches nothing else |
| `LedgerSteps.Store.Prune` | internal/storage/queries/allocations.sql:113-116 | retention deletes exactly the chosen settled entries whose retained window ended before the given instant |
| `LedgerSteps.Store.AppendRevision` | internal/allocations/changes.go:212-218 | a revision is appended and no other row changes |
| `LedgerSteps.Store.DeletePending` | internal/allocations/schedule.go:118-121 | only revisions pending at the given instant, still in the future, go |
| `LedgerSteps.FinishIsSound` | internal/allocations/runtime.go:203-250 | settlement keeps identity, window and revision of an entry, charges nothing while pending, and starts only from active, or by hand from pending |
| `LedgerSteps.OneInForce` | internal/allocations/allocations.go:261-269 | at most one revision is in force at an instant |
| `BudgetBounds.OwedIsCommittedPlusExcess` | internal/allocations/accounting.go:108-159 | conservation: used plus held is exactly what admissions committed plus the excess |
| `BudgetBounds.StepStaysWithin` | internal/allocations/runtime.go:103-193 | every transaction keeps what is committed in a window within the terms of its admissions |
| `BudgetBounds.WindowOutlivesEdits` | internal/allocations/calendar.go:133-147 | a window stays the window of every later revision on the same term |
| `BudgetBounds.BudgetIsNeverExceeded` | internal/allocations/runtime.go:103-193 | over every run, with edits, retries, recovery and retention: used plus held stays within the limits of the term with their buffer, plus the excess |
| `BudgetBounds.MemberBudget` | internal/allocations/runtime.go:103-193 | over every run under one rule, a member owes in any window at most limit + ceil(limit/10) + excess |
| `BudgetBounds.MemberConcurrency` | internal/allocations/runtime.go:84-131 | over every run under one rule, a limited member never has more than four active entries in a window |
| `BudgetBounds.SharedBudget` | internal/allocations/runtime.go:158-167 | over every run under one ratio rule, all members together owe at most total + ceil(total/10) + excess |
| `GrantedLimits.MemberLimitIsGranted` | internal/allocations/accounting.go:11-28 | the limit is the share of the total in ten thousandths rounded down, the override for the length of the window or else its own limit, or the one limit of the member; and no other |
| `GrantedLimits.ReservationIsATenth` | internal/allocations/accounting.go:30-30 | a reservation is a tenth of the limit rounded up, and at least one |
| `GrantedLimits.WindowsCarryTheirConditions` | internal/allocations/calendar.go:133-147 | each window of durations has the length and the limit of one of the conditions of the rule |
| `GrantedLimits.TooManyIsOver4096` | internal/allocations/accounting.go:57-90 | a read is refused iff more than 4096 requests run within the span of the windows that are read, of the member, or of everyone under a ratio rule |
| `GrantedLimits.VerdictFollowsTheRule` | internal/allocations/runtime.go:133-175 | the verdict from the rule as it is written: unavailable, unpriced, spent and admitted each iff; a window is spent when the usage has reached the granted limit or the total, and has room when usage and holdings fit the limit with fewer than four requests running, and the total with its buffer |
| `GrantedLimits.StrangersAreUnavailable` | internal/allocations/runtime.go:133-150 | whoever is not a member of the rule is refused |
| `GrantedLimits.HeldIsATenth` | internal/allocations/accounting.go:108-141 | a running request holds a tenth of what its own rule grants in the window, and nothing where that is boundless |
| `GrantedLimits.GrantIsNeverExceeded` | internal/allocations/runtime.go:103-193 | over every run under one rule a member owes at most the granted limit, a tenth of it rounded up and the excess, and has at most four requests running where there is a limit |
| `GrantedLimits.TotalIsNeverExceeded` | internal/allocations/runtime.go:158-167 | over every run under one ratio rule all members together owe at most the total, a tenth of it rounded up and the excess |
| `EntryLifecycle.StepFollows` | internal/allocations/runtime.go:203-250 | every transaction leaves an entry as it is or advances it active to pending, active to settled or pending to settled |
| `EntryLifecycle.ChargedAtMostOnce` | internal/allocations/runtime.go:203-250 | over every run an entry only advances and a settled charge never changes |
| `EntryLifecycle.AdmittedSettlesIffCountable` | internal/allocations/runtime.go:203-250 | an admitted request settles iff its counts are in range with no more cached than input, and is refused for its usage otherwise, whatever was edited since; it is then settled iff its usage is known, or nothing was sent, or it was rejected |
| `EntryLifecycle.FinishedEntryIsCharged` | internal/allocations/runtime.go:203-250 | a finished entry keeps its counts, and waits uncharged iff something was sent, not rejected and its usage is not known; otherwise it is settled at its tokens, or at the price of its model in its own revision, summed over the kinds of token and rounded up once |
| `EntryLifecycle.FinishChargesItsWindows` | internal/allocations/runtime.go:203-250 | the usage of every window that covers the entry grows by exactly that charge, and by nothing while it waits |
| `EntryLifecycle.PruneKeepsOpenWindows` | internal/storage/queries/allocations.sql:113-116 | retention never lowers the usage of a window that is still open |
| `UsageReports.Stream.Observe` | internal/gateway/history.go:376-409 | a responses event with usage replaces the three counts, each kept only within its range; one without leaves them |
| `UsageReports.Stream.MessageUsage` | internal/upstream/messages.go:75-109 | the loops over both usage objects keep the newest plausible counts, and the input is their sum with cache reads and writes, unless it is out of range |
| `UsageReports.Stream.GeminiUsage` | internal/upstream/gemini.go:88-112 | the newest plausible counts are kept, and the output is their sum with thoughts, unless it is out of range |
| `UsageReports.PlausibleCountsAreKept` | internal/upstream/messages.go:85-94 | a count outside zero to a thousand million is dropped, in favour of the one before it in a stream |
| `UsageReports.TotalsAreRecorded` | internal/upstream/messages.go:95-108 | the recorded input of messages is what was sent and what the cache took and gave, the output of gemini what was answered and thought, neither beyond a thousand million |
| `UsageReports.UsageIsKnownIff` | internal/gateway/allocations.go:30-32 | usage is known iff input and output were reported and the answer finished or its usage was final; absent counts are charged as zero |
| `UsageReports.AnswersStayInRange` | internal/gateway/history.go:400-408 | over every sequence of answers of any protocol each recorded count is absent or within its range |
| `UsageReports.ReportedSettlesIffCachedFits` | internal/gateway/allocations.go:20-37 | whatever an upstream answered and however the request ended, an admitted request settles iff it is charged no more cached tokens than input, absent counts being zero |
| `UsageReports.MessagesSettleIffInputOrNothingCached` | internal/upstream/messages.go:95-108 | for messages that is iff an input total was recorded or nothing was cached |
| `UsageReports.CachedAloneIsRefused` | internal/gateway/allocations.go:24-32 | in each protocol, one answer with an output and a cached count but no input is refused for its usage |
| `Settlement.Recorder.Persist` | internal/gateway/history.go:265-298 | one transaction settles, records and counts a request, or finds it recorded already; its effect for a commit that succeeds, fails, or succeeds and reports failure |
| `Settlement.Recorder.Finish` | internal/gateway/history.go:252-258 | a request whose recording failed and that is tracked waits to be retried |
| `Settlement.Recorder.RetryFailed` | internal/gateway/allocations.go:87-100 | the loop records the waiting requests in order and keeps exactly those that failed again |
| `Settlement.Recorder.Prepare` | internal/gateway/allocations.go:45-62 | a request is prepared after what waits is tried again, and refused iff one of the same member still waits |
| `Settlement.RetryCountsAgainIffRecordGone` | internal/gateway/history.go:272-297 | recording a request that is charged already counts it once more iff its record is gone, its entry kept and the write not lost; the ledger is charged once either way |
| `Settlement.CountedAgainIff` | internal/gateway/history.go:265-298 | of all steps after any run, those that count a counted request again are exactly the retries that find it waiting with its record deleted and its entry kept, and whose write is not lost |
| `Settlement.PrunedRecordIsCountedTwice` | internal/gateway/maintenance.go:46-46 | from every ledger with an open countable entry: a commit that lands but reports failure, retention of the record and a retry count the request twice |
| `Settlement.CountedIsCharged` | internal/gateway/history.go:272-297 | over every run a tracked request in the statistics has its ledger entry finished |
| `Settlement.UncountableBlocksItsMember` | internal/gateway/allocations.go:45-62 | after any run, a request that ends with counts settlement refuses waits, unrecorded and with its entry open, and blocks its member, through every run without a restart |
| `Settlement.PersistRecordsOnce` | internal/gateway/history.go:265-298 | recording touches no other request, counts at most once while the record is kept, and for good when it succeeds |
| `Settlement.UntrackedEntryKeepsASlot` | internal/allocations/runtime.go:184-194 | an entry whose admission landed but reported failure, and that nobody tracks, stays open through every run without recovery, and in every window that covers it counts one of its member's slots beside the others |
| `Settlement.CountedExactlyOnce` | internal/gateway/history.go:265-298 | over every run of ends, retries, failures and crashes in which retention spares the records of waiting requests: never counted twice, once if it ended, does not wait and its process lived, and a tracked one only with its charge made |
| `LeaseRecords.ModelIsRead` | internal/gateway/model_runtime.go:28-42 | the state of a model is the published one of the present lifecycle and revision, or else its row of the same, or else that of a model nothing is known of |
| `LeaseRecords.RowIsPrunedIff` | internal/storage/queries/model_runtime.sql:40-47 | reloading deletes the row of a model iff its account is there and the row is of another epoch, or has cooled down and is of a model no longer listed |
| `LeaseRecords.LeaseIsGivenIff` | internal/gateway/runtime.go:225-243 | a lease is given iff the account is known, has room and is not held back, and the model is not held back and published or fewer than a thousand are |
| `LeaseRecords.DelayIsAsked` | internal/gateway/runtime.go:244-256 | a cooldown is the time the provider asks for, or that of the policy, between a second and an hour |
| `LeaseRecords.ModelLimitIs` | internal/gateway/model_runtime.go:86-106 | a model limit is one more failure up to sixteen, or the first of a new reason, and cools until the time asked for or longer |
| `LeaseRecords.TransientFailureIs` | internal/gateway/model_runtime.go:93-106 | a transient failure goes on with its streak within the window, or starts one; from the threshold on it cools for the time of the policy doubled up to four times, between a second and five minutes |
| `LeaseRecords.AccountResultIs` | internal/gateway/history.go:217-242 | a limit is one more failure of its revision up to sixteen; a newer success after the cooldown clears it; nothing else changes the account |
| `LeaseRecords.AccountIsSaved` | internal/storage/queries/runtime.sql:8-12 | the row of an account takes cooldown, failures and revision from memory, and nothing else changes |
| `LeaseRecords.ModelIsSaved` | internal/storage/queries/model_runtime.sql:17-27 | the row of a model is written only in the present epoch, under the next version |
| `LeaseRecords.ModelIsDeletedIff` | internal/storage/queries/model_runtime.sql:29-34 | the row of a model is deleted only if it is of the epoch and version that memory has, and that is the present epoch |
| `LeaseRecords.ResumeClears` | internal/gateway/runtime.go:175-218 | a resume clears the account in memory and in its row under the next revision, and deletes the rows of its models |
| `LeaseConservation.RunConserves` | internal/gateway/queue.go:25-145 | over every interleaving: in-flight counts equal open leases per account and per model state, member counts equal unfinished admitted requests, queues equal waiting requests within the limit, idle model state leaves memory and is bounded, and at most one open lease is younger than an uncleared failure |
| `LeaseConservation.StartConserves` | internal/gateway/queue.go:25-145 | the invariant holds when the gateway starts on any stored rows |
| `LeaseConservation.StepKeepsLeases` | internal/gateway/history.go:203-262 | every step keeps the lease counts, the order of sequence numbers and the single probe |
| `LeaseConservation.StepIsBounded` | internal/gateway/model_runtime.go:65-74 | every step keeps published model state to open leases and failed writes, at most 1000 |
| `LeaseConservation.StepKeepsMembers` | internal/gateway/members.go:82-106 | every step keeps each member count equal to its admitted, unfinished requests |
| `LeaseConservation.StepKeepsQueues` | internal/gateway/queue.go:79-83 | every step keeps each queue count equal to its waiting requests and within the limit |
| `LeaseConservation.ClampsNeverFire` | internal/gateway/history.go:244-244 | giving back a lease never meets the lower bound of zero, for account and model |
| `LeaseConservation.LeasesRespectLimits` | internal/gateway/runtime.go:225-243 | a step that adds a lease adds one, to an account with room that is not cooling; a limited account gets it only when idle |
| `LeaseEpochs.AccountClearedByNewer` | internal/gateway/history.go:214-242 | an account stops being limited only by a resume or by the success, after its cooldown, of a request admitted after every failure known of its revision |
| `LeaseEpochs.ModelClearedByNewer` | internal/gateway/model_runtime.go:76-137 | a model failure is cleared in memory, and its row removed by a result, only by the success of a request admitted after every failure known of its epoch, even when the state was evicted and read back with sequence zero |
| `LeaseEpochs.StepKeepsCovered` | internal/gateway/model_runtime.go:28-42 | every step keeps the link between sequence numbers in memory and the failures reported so far |
| `LeaseEpochs.LateSuccessClearsNothing` | internal/gateway/history.go:214-250 | along every run from the start, whatever clears a limit in memory is newer than all failures of it reported before |
| `ResumedAccounts.StepMovesRevisions` | internal/gateway/runtime.go:175-218 | in memory, the revision of an account with open leases changes only by a resume that reports success, and goes up by it |
| `ResumedAccounts.StepKeepsUnpublished` | internal/gateway/model_runtime.go:65-84 | model state once out of the table is never published again |
| `ResumedAccounts.ResumeOutlives` | internal/gateway/runtime.go:175-218 | a resume ends the epoch of a present lease of the account exactly when its write reports success |
| `ResumedAccounts.OutlivedIsInert` | internal/gateway/history.go:217-243 | the result of such a lease only gives its capacity back |
| `ResumedAccounts.ResumedEpochIgnoresLateResults` | internal/gateway/runtime.go:175-218 | whatever happens while a request of its account's present epoch is open, with resumes of every fate: no result of it then changes a limit, row, sequence or published state, iff the account was resumed by one that reported success |
| `ResumedAccounts.ReachableIsSound` | internal/gateway/queue.go:25-145 | every state that a run from the start reaches meets the premise of these results |
| `StoredEpochs.LimitTakesRowBack` | internal/storage/queries/runtime.sql:8-12 | a row ahead of memory is taken back to the revision in memory by an account limit of a request of that revision |
| `StoredEpochs.FinishKeepsEpochsIff` | internal/gateway/runtime.go:219-224 | all results of an open request leave every row in its epoch iff memory has the revision of its account's row or the request is not of the revision in memory |
| `StoredEpochs.LateResultReopensTheModel` | internal/gateway/runtime.go:175-224 | a run from the start: after a resume that lands but reports failure, the result of a request opened before it makes a stored model limit of the new epoch unreadable, and the model is admitted 55 seconds early |
| `PastLifecycles.NewLifecycleIgnoresLateModelResultsIff` | internal/gateway/model_runtime.go:76-137 | whatever happens between a new lifecycle of the account and the end of a request on a model opened before it: no result changes a model row, and none changes anything admission reads of a model iff memory has the revision of the row or the request is not of the revision in memory |
| `PastLifecycles.LateResultReachesAccountIff` | internal/gateway/history.go:214-243 | some result of an open request changes its account beyond the capacity given back iff the account was not resumed since; a new lifecycle makes no difference |
| `PastLifecycles.LateLimitClosesTheNewLifecycle` | internal/gateway/history.go:217-228 | a run from the start in which a request of the old lifecycle closes the account under its new one |
| `Cooldowns.ReportedLimitCools` | internal/gateway/model_runtime.go:86-119 | a model limit reported in the epoch of the account's row is in force at once, until the time asked for, whatever becomes of its write |
| `Cooldowns.StepCools` | internal/gateway/model_runtime.go:107-136 | no step before its time reopens a limited model, other than a resume, a change of epoch from elsewhere, and the result of a request that takes the row back to an earlier epoch: not eviction, a lost write, a reload or other results |
| `Cooldowns.LimitedModelStaysClosed` | internal/gateway/model_runtime.go:52-63 | along every such run the limited model is refused at every moment before its time; while memory has the revision of the account's row every calm run is one |
| `Cooldowns.ResultsLeaveCoolingIff` | internal/gateway/runtime.go:219-224 | whatever model state there is in memory and in rows, a model that cools keeps cooling under all results of an open request, iff the request is another account's, memory has the revision of the account's row, or the request is not of the revision in memory |
| `Cooldowns.ReportedAccountLimitCools` | internal/gateway/history.go:218-228 | an account limit reported in its revision is in force at once |
| `Cooldowns.LimitedAccountStaysClosed` | internal/gateway/runtime.go:225-243 | along every run without resume or removal the limited account is refused until its time |
| `Cooldowns.StreakLimitsFromThreshold` | internal/gateway/model_runtime.go:93-106 | transient failures limit a model iff as many as the threshold fall within a window of the first: until exactly the last of them plus a time doubling with each further one up to sixteen times and five minutes, or a later limit it already had |
| `Cooldowns.CountedLieWithinWindow` | internal/gateway/model_runtime.go:93-106 | at whatever times transient failures come, those counted are the last ones and lie, in order, within a window of the first of them |
| `Cooldowns.SparseFailuresNeverLimit` | internal/gateway/model_runtime.go:93-106 | transient failures of which never as many as the threshold fall within a window of one of them do not limit the model, however many and whenever they come |
| `Cooldowns.StraddlingFailuresDoNotLimit` | internal/gateway/model_runtime.go:93-98 | the window does not slide: failures that come close enough but straddle the end of an earlier window do not limit |
| `Leases.FollowRows` | internal/gateway/runtime.go:59-73 | every stored account gets a state in memory; known ones keep theirs with the stored concurrency |
| `Leases.DropGone` | internal/gateway/runtime.go:74-78 | exactly the removed, idle accounts go |
| `Leases.Unpublish` | internal/gateway/runtime.go:81-86 | exactly the model states of ended epochs go |
| `Leases.Gateway.LoadRuntime` | internal/gateway/runtime.go:54-88 | reloading makes the reload step of the protocol |
| `Leases.Gateway.Admit` | internal/gateway/runtime.go:225-243 | the answer is that of account limits, then model limits, then the bound on model state |
| `Leases.Gateway.Lend` | internal/gateway/queue.go:112-144 | a lease makes the lend step; a management check makes it without a sequence number |
| `Leases.Gateway.FinishAccount` | internal/gateway/history.go:214-246 | the account part of a result makes its part of the finish step |
| `Leases.Gateway.LearnModel` | internal/gateway/model_runtime.go:86-132 | the model part of a result makes its part of the finish step, for each fate of the write |
| `Leases.Gateway.FinishModel` | internal/gateway/model_runtime.go:76-137 | the model part with release and eviction |
| `Leases.Gateway.Finish` | internal/gateway/history.go:203-262 | the end of a request makes the finish step |
| `Leases.Gateway.Release` | internal/gateway/check.go:150-162 | the end of a management check makes the release step, without limits or member accounting |
| `Leases.Gateway.ResumeAccount` | internal/gateway/runtime.go:175-218 | a resume makes the resume step, for each fate of its write |
| `Leases.Gateway.SetConcurrency` | internal/gateway/runtime.go:144-174 | a new limit within 1 to 1000 makes its step, on row and memory; others change nothing |
| `Leases.Gateway.AdmitMember` | internal/gateway/members.go:82-106 | a request joins its member iff the limit leaves room |
| `Leases.Gateway.Enqueue` | internal/gateway/queue.go:79-83 | a request joins the queue iff it is not full |
| `Leases.Gateway.Dequeue` | internal/gateway/queue.go:41-45 | a request leaves the queue, and an empty queue keeps no entry |
| `Routing.Candidates` | internal/gateway/selection.go:215-335 | the single pass returns exactly the admitted accounts of least rank in order, and for an empty result the first applying reason with the shortest wait; a failed model look-up ends it with an error |
| `Routing.TierMembers` | internal/gateway/selection.go:302-313 | a tier holds exactly the admitted accounts of its rank |
| `Routing.BestTierIsEmptyOnlyIfNoneAdmitted` | internal/groups/resources.go:54-63 | since ranks never exceed three, the tier is empty iff no account is admitted |
| `Routing.TierIsForemost` | internal/groups/resources.go:49-63 | the tier holds exactly the admitted accounts that no admitted account goes before: the parent first, then those the policy does not put off, then those of the native provider of the protocol |
| `Routing.VerdictIff` | internal/gateway/selection.go:180-300 | each verdict on an account iff: it may not serve the request, does not list its model, is held, has spent its quota, its model is held, its allowance refuses, or it is admitted |
| `Routing.RefusedIff` | internal/groups/policy.go:48-62 | a request is refused at once iff models are restricted and no rule names its model for its provider, for any or, where it names none, for some |
| `Routing.CatalogNameDropsEffort` | internal/upstream/models.go:46-51 | the name in catalogues is the model without a last part in parentheses that something precedes, and the model itself otherwise |
| `Availability.ModelAvailability` | internal/gateway/availability.go:100-203 | the loop counts the available and the unknown accounts, and finds the earliest moment a reason ends |
| `Availability.ObservesTheSameLimit` | internal/gateway/availability.go:85-93 | the limit the observer collects answers as the one selection reads |
| `Availability.ObserverAgreesOnAccountIff` | internal/gateway/availability.go:85-164 | whatever the state of the models in memory and in their rows, the observer reports an account iff selection admits it, if and only if memory has the revision of the account's row, or something other than a model refuses the account |
| `Availability.ObserverAgreesWithSelection` | internal/gateway/availability.go:100-203 | where that condition holds of each account, the observer reports an available account iff selection would choose one |
| `Availability.StepKeepsMatched` | internal/gateway/runtime.go:175-218 | every step but a resume that lands and reports failure keeps accounts in memory at the revision of their rows |
| `Availability.LandedResumeFallsBehind` | internal/gateway/runtime.go:195-217 | a resume that lands but reports failure always leaves memory behind the row |
| `Availability.ObserverCanMissALimit` | internal/gateway/availability.go:85-93 | a run from the start, through such a resume and a limit whose write is lost, ends with the observer reporting an account that selection refuses |
| `Rotation.ChoiceIsShare` | internal/gateway/selection.go:359-366 | a ticket chooses the candidate whose share of the tickets holds it |
| `Rotation.WeightedRotationIsFair` | internal/gateway/selection.go:342-373 | any sum-of-weights consecutive choices, from any cursor, choose each candidate exactly its weight of times |
| `Rotation.PlainRotationIsFair` | internal/gateway/selection.go:340-341 | any n consecutive plain choices choose each of n candidates once, from any cursor |
| `Rotation.Rotations.Weigh` | internal/gateway/selection.go:343-355 | weights are those of quota iff all candidates are of one provider and known |
| `Rotation.Rotations.Take` | internal/gateway/selection.go:359-366 | the loop over weights finds the ticket holder |
| `Rotation.Rotations.Pick` | internal/gateway/selection.go:336-373 | the choice is that of the cursor under the weights in use, and only this cursor moves, by one |
| `Affinity.LiveStays` | internal/gateway/selection.go:108-199 | a live binding changes its account iff this very conversation moves: another model, whole history, account known not to have it, and another choice |
| `Affinity.StandingIff` | internal/gateway/selection.go:120-199 | a bound conversation stays, moves or is refused for each reason iff, in terms of what its account may do and what the request names |
| `Affinity.StayingRenews` | internal/gateway/selection.go:186-199 | a conversation that stays is answered by its account, and renewed for a day once less than a day less half an hour is left or its model changed |
| `Affinity.SchedulingBinds` | internal/gateway/selection.go:336-414 | an unbound conversation is bound to the scheduled account for a day, expired bindings go, and it is refused iff 4096 others are unexpired |
| `Affinity.MovingBinds` | internal/gateway/selection.go:150-160 | a conversation that moves is bound to the scheduled account for a day, and remembers that it moved |
| `Affinity.AutomaticRoutingAdopts` | internal/gateway/affinity.go:21-39 | automatic routing that finds its conversation bound under another scope answers alike and keeps a binding of its own |
| `Affinity.FindsIff` | internal/gateway/affinity.go:21-39 | the binding of the scope is found if unexpired; for automatic routing nothing, one or ambiguity by the number of unexpired bindings of the conversation |
| `Affinity.BoundAnswer` | internal/gateway/selection.go:161-197 | a bound conversation is answered by its account unless it moves, and its binding then lasts at least a day less half an hour |
| `Affinity.ExpiryGrows` | internal/storage/queries/gateway.sql:10-13 | with a clock that does not go back no selection shortens a live binding |
| `Affinity.ConversationsStay` | internal/gateway/selection.go:108-199 | over every run, a conversation answered at least every day less half an hour is answered by one account for as long as it goes on, whatever others do |
| `Affinity.BoundConversationsStay` | internal/gateway/selection.go:108-199 | over every run in which its binding is unexpired at each of its own turns, a conversation is answered by one account, whenever others come |
| `Affinity.MovedConversationRefusesOldState` | internal/gateway/selection.go:140-144 | after a move a continuation that names another model is refused |
| `Affinity.SelectKeepsCapacity` | internal/gateway/selection.go:402-414 | the table never exceeds 4096 bindings |
| `Affinity.Bindings.FindBinding` | internal/gateway/affinity.go:21-39 | the binding of the scope, or the only live one for automatic routing, or ambiguity |
| `Affinity.Bindings.Remember` | internal/gateway/selection.go:402-414 | expired bindings go, and the new one is kept unless the table is full |
| `Affinity.Bindings.Choose` | internal/gateway/selection.go:108-199 | the selection of a conversation in the order of the source, answer and table alike |
| `Redemption.RedemptionIsSafe` | internal/resets/resets.go:292-335 | over every run with crashes, races, replays and late messages: at most one pending run, one card per key, each scheduled occurrence claimed once, and, while the computed bounds leave out no instant of the present day, the cards spent by the runs of one day within the daily limit |
| `Redemption.LimitHoldsIffDaysAreCovered` | internal/resets/resets.go:313-334 | the daily limit holds over all runs iff at every moment the computed bounds enclose it and leave out no earlier instant of its date; where the searches find their dates, iff the noon proposed for the present date is never on a later one and that of the next date always is |
| `Redemption.MissedRunIsNotCounted` | internal/resets/resets.go:313-334 | for every instant of a day that the bounds computed later that day leave out, a run from the start with a limit of one that spends two cards on that day |
| `Redemption.SkippedDateBreaksTheLimit` | internal/resets/schedule.go:51-70 | a zone that skips a civil date, with the noon of that date proposed on the date before: its bounds are empty there and the limit is exceeded |
| `Redemption.StepIsSafe` | internal/resets/resets.go:358-422 | every step keeps one pending run, keys paired with their cards, and one run per occurrence |
| `Redemption.StepKeepsRecord` | internal/resets/resets.go:384-427 | every step keeps each key that may have spent on record until its day is over, retention where the bounds leave out nothing of the day |
| `Redemption.ReserveIsCapped` | internal/resets/resets.go:313-334 | where the computed bounds leave out nothing of the day, a reservation keeps the day within the limit, counting what may yet be spent |
| `Redemption.PruneKeeps` | internal/storage/queries/resets.sql:34-36 | retention deletes only finished runs from before the day start it is given |
| `Redemption.PruneDeletesIff` | internal/storage/queries/resets.sql:34-36 | retention deletes exactly the finished runs from before the day start that a hundred later ones follow |
| `Redemption.AnswerIsRecorded` | internal/resets/resets.go:384-422 | each answer settles the waiting run with its outcome and reason, and an unknown one leaves it pending with its card |
| `Redemption.AdvanceIsConditional` | internal/storage/queries/resets.sql:10-13 | an occurrence advances only from the schedule it was computed for, and is claimed only when due |
| `Redemption.ReservesIff` | internal/resets/resets.go:296-334 | a reservation is made iff the account is in use and as inspected, nothing is pending, the day has room and the occurrence is new |
| `Redemption.ReservationIsRecorded` | internal/resets/resets.go:322-334 | a reservation is recorded as pending with its card, to be confirmed |
| `Redemption.StepClaimsOnce` | internal/resets/resets.go:237-247 | claims come in increasing order and the next occurrence is later than all of them |
| `Redemption.ReplayResolves` | internal/resets/resets.go:358-422 | replaying the pending key with its card ends uncertainty: the run is recorded as a success iff the provider spent a card |
| `ResetDays.CivilStart` | internal/resets/schedule.go:57-70 | the loop finds the computed start of a date |
| `ResetDays.DateStartSplitsIff` | internal/resets/schedule.go:57-70 | the computed start is the first instant of the date iff the day and a half that is searched does not begin within it |
| `ResetDays.BoundsAreTheDayIff` | internal/resets/schedule.go:51-55 | the computed bounds hold exactly the instants of the present date iff the proposed noons are on it and on the next date there is |
| `ResetDays.CoversTodayIff` | internal/resets/schedule.go:51-70 | the computed bounds leave out no instant of the present date up to now iff the instant before the first is of an earlier date and now is before the second; where the searches find their dates, iff the noons straddle the end of the present date |
| `ResetService.NextOccurrence` | internal/resets/schedule.go:5-42 | the one date asked for, or where the zone skips it the date its noon is moved to; or the first suitable date of the fifteen ahead; after the given moment; none iff no date suits |
| `ResetService.OccurrencesKeepTheirDates` | internal/resets/schedule.go:15-35 | where the proposed noons lie on their dates, that is the first suitable one of the fifteen dates from the present one on |
| `ResetService.SuitsIff` | internal/resets/schedule.go:24-35 | a date suits iff the instant proposed for it lies in its configured minute and ahead, on the weekday asked for |
| `ResetService.WeekdaysFollow` | internal/resets/schedule.go:33-33 | the epoch was a Thursday and weeks have seven days |
| `ResetService.ObjectionIff` | internal/resets/resets.go:262-302 | each reason not to redeem an inspected account iff its cause holds and none before it |
| `ResetService.Service.Begin` | internal/resets/resets.go:215-262 | the schedule is rezoned and a due occurrence claimed in steps of the protocol, before anything else |
| `ResetService.Service.Skip` | internal/resets/resets.go:337-356 | a skip is recorded with its reason, once per occurrence; an observation of exhaustion that repeats cause and reason of the last run is not recorded again |
| `ResetService.Service.Complete` | internal/resets/resets.go:262-335 | a reservation is made only for fresh, unspent, permitted and unchanged accounts with an eligible card and room that day; otherwise a skip for the first objection, or for the daily limit |
| `ResetService.Service.CountUsage` | internal/storage/queries/resets.sql:27-29 | the count of pending and successful runs between the two bounds |
| `ResetService.Service.Retry` | internal/resets/resets.go:358-382 | a retry sends the pending key with the card reserved for it |
| `ResetService.Service.Consume` | internal/resets/resets.go:384-422 | an answer settles only the run that waits for it |
| `ResetService.Service.Save` | internal/resets/resets.go:144-197 | settings within bounds are stored under a new revision with the next occurrence |
| `Conversations.IncrementalIsWhole` | internal/gateway/conversation.go:49-159 | after any messages, accepted, rejected or failed, a forwarded request is in1++out1++...++in_n since the last full transcript, with the settings last given, and never a truncated history |
| `Conversations.ForwardedIff` | internal/gateway/conversation.go:49-129 | an incremental message is forwarded iff it is well formed, within the limits, and its history is known and not outgrown |
| `Conversations.SettingsAreTheLastGiven` | internal/gateway/conversation.go:88-129 | a forwarded request has the settings of the message, or else those of the request before, and names a model |
| `Conversations.RejectedChangesNothing` | internal/gateway/conversation.go:49-159 | rejected and failed turns leave the history as it was |
| `Conversations.Conversation.FullTranscript` | internal/gateway/conversation.go:177-188 | the loop finds whether an item shows a whole transcript |
| `Conversations.Conversation.NormalizeMessage` | internal/gateway/conversation.go:49-129 | the checks and the merge in order, changing only the continuation mark |
| `Conversations.Conversation.AcceptResponse` | internal/gateway/conversation.go:131-159 | an accepted response replaces request and output, or drops both inputs when they outgrow the limit |
| `Refresh.ChainsKeepThePerson` | internal/accounts/identity.go:55-74 | along any chain of accepted rotations provider and account are constant, a known user never changes, and a user becomes known only through the subject they had |
| `Refresh.SameIdentityIsNotTransitive` | internal/accounts/identity.go:55-74 | comparing only the ends of a chain would refuse the same person |
| `Refresh.SameIdentityIff` | internal/accounts/identity.go:55-74 | a rotated credential is accepted iff its kind and account are the same and, for codex, the known user is, or else the known subject, or still nothing is known |
| `Refresh.ClosedRowsAreRefused` | internal/accounts/refresh.go:36-58 | an account out of service, disabled or to be authorized anew is refused without asking |
| `Refresh.FreshIsGranted` | internal/accounts/refresh.go:76-103 | a credential that was not refused and lasts two more minutes, or sixteen for antigravity, is handed out without asking |
| `Refresh.DeferredIsAnswered` | internal/accounts/refresh.go:104-110 | before the next attempt only a codex credential with half a minute left serves, after a failure that allows it; others wait at least a second |
| `Refresh.UnavailableDefers` | internal/accounts/refresh.go:162-178 | an unreachable provider is asked again after half a minute, one, two, four or five, or as long as it asks up to an hour |
| `Refresh.RotationIsAcceptedIff` | internal/accounts/refresh.go:118-160 | a rotated credential is stored and handed out iff it is of the same person, valid, lasting and not the refused token; otherwise nothing serves until the next attempt |
| `Refresh.CorrectedRow` | internal/accounts/refresh.go:59-75 | before anything else a missing device is added and the refused token marked |
| `Refresh.GrantedIsStored` | internal/accounts/refresh.go:36-147 | a credential handed out is the one stored, not refused, not the token just refused, and not about to expire |
| `Refresh.NotAskedBeforeDue` | internal/accounts/refresh.go:104-107 | before a deferred attempt is due the provider is not asked |
| `Refresh.BackoffIsBounded` | internal/accounts/refresh.go:162-170 | delays lie between half a minute and an hour |
| `Refresh.AskedOnceOrDeferred` | internal/accounts/refresh.go:111-147 | an answer is stored and handed out, or the next question waits for a growing delay |
| `Refresh.RefusedStaysRefused` | internal/accounts/refresh.go:69-75 | a refused token stays marked until another is stored |
| `Refresh.StoredKeepsIdentity` | internal/accounts/refresh.go:149-160 | no call changes whose credential is stored |
| `Refresh.AccountsStayOnePersons` | internal/accounts/identity.go:55-74 | over every run of calls and renewals the stored credential stays one person's |
| `Refresh.DeferralHolds` | internal/accounts/refresh.go:104-107 | along every run no call asks before the deferral is due |
| `Refresh.Owner.Correct` | internal/accounts/refresh.go:59-75 | the device and the mark of a refused token are stored before anything else |
| `Refresh.Owner.DeferRefresh` | internal/accounts/refresh.go:162-178 | a failure sets the next attempt and the fallback |
| `Refresh.Owner.AskProvider` | internal/accounts/refresh.go:104-147 | the provider's turn, for every answer and fate of the write |
| `Refresh.Owner.PrepareCredential` | internal/accounts/refresh.go:36-147 | one call, in the order of the source |
| `QuotaCache.RunIsSound` | internal/gateway/usage.go:176-264 | under every interleaving of reads, polls, responses, evictions and revision changes with certain writes, a live entry equals the committed row, the cache holds at most 100 entries, no row goes back to an earlier revision, and a row that keeps its revision is never replaced by an earlier read |
| `QuotaCache.StepReadsAdvance` | internal/gateway/usage.go:227-234 | no snapshot of a revision gives way to one read before it |
| `QuotaCache.PollIsStoredIff` | internal/gateway/usage.go:211-264 | a poll is stored and shown iff it read something, no later response is shown, and no later observation of the present quota is stored |
| `QuotaCache.ResponseIsStoredIff` | internal/gateway/observation.go:13-65 | a response is stored and shown, with the allowance it does not mention taken from before, iff it extends the live snapshot of its revision and no later observation is stored |
| `QuotaCache.LandedPollBreaksCoherenceIff` | internal/gateway/usage.go:235-261 | a poll whose write lands but reports failure breaks coherence iff it was not overtaken, could be saved, and read another snapshot than the row's |
| `QuotaCache.LandedResponseBreaksCoherenceIff` | internal/gateway/observation.go:13-65 | a response whose write lands but reports failure breaks coherence iff it was to be saved at all |
| `QuotaCache.LandedResponseIsForgotten` | internal/gateway/usage.go:235-261 | a run from the empty cache with such a response: the cache keeps the snapshot before it, and the poll that began before it then replaces it in the row by an earlier read |
| `QuotaCache.ResponseNeverLowersQuota` | internal/gateway/observation.go:32-42 | with no two windows of one kind and one reset, each window of a response follows an old one with its reset and no less used |
| `QuotaCache.StrangersEnterIffRepeated` | internal/gateway/observation.go:32-42 | some response that is accepted has a window that follows none of the snapshot's iff the snapshot has two windows of one kind and one reset, and can be followed at all: one unnamed limit whose windows are measured and still open |
| `QuotaCache.Cache.FindOldest` | internal/gateway/usage.go:190-201 | the entry unused longest among those without a poll, if any |
| `QuotaCache.Cache.LoadEntry` | internal/gateway/usage.go:185-209 | the live entry, or one read from its row with room made for it; refused only when every entry is polled |
| `QuotaCache.Cache.AllMatched` | internal/gateway/observation.go:32-42 | the nested loops decide whether every old window has a successor |
| `QuotaCache.Cache.ObserveResponse` | internal/gateway/observation.go:13-65 | a response observation makes its step |
| `QuotaCache.Cache.EndPoll` | internal/gateway/usage.go:211-264 | the end of a poll makes its step |

## Left out

- Integer width: 64-bit overflow is not modelled; amounts and instants are unbounded, and the bounds of stored limits, prices and counts are modelled where the program checks them.
- Errors of reads and of unrelated writes, cancelled contexts and shutdown: a call that ends in one changes nothing beyond what is modelled.
- HTTP, streaming, JSON, encryption and provider clients: their results are parameters.
- Several schemes and workspaces: each ledger is one scheme's; the identifiers that keep them apart are not modelled.
- Input validation of schemes, funding previews, price coverage and schedule previews (`internal/allocations/changes.go`, `allocations.go`): an accepted configuration is a premise, and edits are appended or deleted revisions.
- LedgerSteps.Store.Begin: a commit of an admission that succeeds but reports failure is not told apart; Settlement.UntrackedEntryKeepsASlot says what becomes of such an entry.
- UsageReports.ReportedSettlesIffCachedFits: the fields of an answer are inputs, decoded from JSON elsewhere; an answer that cannot be decoded is one without fields.
- Settlement.CountedExactlyOnce: a run may prune a request's record only after the request no longer waits; without that, CountedAgainIff says exactly when a request is counted again.
- Request rate per minute, API-key checks of waiting requests and wake-up signals: a waiting request is one that is counted in its queue; when it is woken is not modelled.
- Leases.Gateway.Finish: the member count is lowered at the end of the locked section instead of at its start, and one reading of the clock serves the section.
- Leases.Gateway.Lend: selection and lease read one state of the rows; the allowance entry written between them is part of the ledger's model.
- Cooldowns.SparseFailuresNeverLimit: one direction only, as StraddlingFailuresDoNotLimit shows; StreakLimitsFromThreshold gives the other for failures within a window of the first.
- Retry-After texts: a hint is a number of seconds or absent.
- Display state of accounts (reasons, limited-model counts) and the route explanation.
- Routing.Candidates: catalogue decoding and quota decisions are inputs, and the allowance check of each account is a set of refused accounts.
- Affinity.Bindings.Choose: what holds of accounts at the time of a request, and the account scheduling would choose, are parameters; session digests are taken to be distinct.
- BudgetBounds.BudgetIsNeverExceeded: the time zone setting does not change during a run of the ledger.
- Redemption.RedemptionIsSafe: the time zone setting does not change during a run, and the provider decides each key once; the choice of the card that expires first is an input.
- ResetService.Service.Begin: the lock that lets one run at a time hold an account is a premise of each step, not a field.
- Conversations.Conversation.AcceptResponse: encoded sizes are functions of messages, requests and items, and malformed events are failed turns.
- Refresh.Owner.PrepareCredential: proxies, static API endpoints and the validity of rotated credentials are inputs.
- QuotaCache.Cache.ObserveResponse: snapshots are stored and read back unchanged; admission of polls, their waiting readers and their retry times are not modelled.
- Alerts, audit records, backups, telemetry, configuration and the dashboard.
