# Verified models of kjelly/pilot

Dafny models of five parts of pilot, an infrastructure controller, with proofs of what those parts promise.
`dafny verify dfyconfig.toml` checks everything. The proofs are about the models; nothing was executed.

## What is modelled

**Incremental log redaction and rotation** (`internal/ansible/log_policy.go`). `Redaction` is the per-line redactor
with its private-key state; the masker and the regular expressions are function fields of `RuleSet`, constrained only to
keep a line a line. `LogScan` is one maintenance of a log with its saved record, `LogMaintenance` its imperative form.
`LogHistory` runs arbitrary histories of writers, maintenances and kills, `LogAppend` append-only histories, which `LogReader`
compares with a reader that sees only the text, `LogPass` compares incremental scans with a full pass, `LogKeys` follows
private keys over maintenances, `LogCoverage` tells from the lines alone what the log shows for each, `LogContinuation` the
same for a line that maintenances cut, and `LogRotation` is the multi-step rename protocol, with a kill, a failure or a write
by a process that still has the log open possible between any two steps. SHA-256 is taken as injective.

**Agent controller** (`internal/agentcontroller`). `RemediationPlans` is the plan, approval and execution protocol: calls
read their plan in one step and commit a guarded statement in another, and any other call may run in between.
`PlanStore` holds the same operations as methods of a class, and the budget query; `PlanRecovery` is recovery beside other
processes. `Incidents` holds the incident
transactions over their tables and unique indexes, `IncidentStore` their imperative form, `Scheduler` the dispatch loop
with its goroutines, webhooks and restarts as a state machine, `DispatchBounds` and `DispatchHistory` what it keeps, and
`Backoff` the retry delay in 64-bit arithmetic.

**Test sharding** (`scripts/ci-go-test-shards.py`). `ShardBound` is the approximation bound of greedy placement,
`ShardPartition` the partition, `TestEvents` the streaming event validator, `TestReport` what its report says, `ShardGate` the
evidence gate.

**Dependency order** (`internal/decommission/dependency.go`, `internal/contract/lint.go`). `DependencySearch` is the
three-colour depth-first search and its two users.

**Access resolution** (`internal/accessportal`, `internal/accessdirectory`). `AccessPolicy` is rule matching and the
filtered policy snapshot, `AccessMeaning` what the result says about the directory server's rules, `AccessDirectory` the merge
over scopes, `DirectoryLoader` its loops and the scope catalog.

`Ordering`, `Outcomes` and `Timestamps` are shared: string order, sorting, optional values and refusals, stored times.

## Where the code and its words differ

- `queue.go` (46-50) says two incidents on one host can both pass the per-host check. The `hostBusy` claim in the same
  function prevents that: `DispatchBounds.HostLimit`. What can exceed the limit is a count query that returns an error,
  because line 77 then skips both tests: `DispatchBounds.ConsiderHostExact` and `CountErrorExceeds`.
- `incident.go` (498) says a resolved incident is never reopened by a lagging run outcome. That holds of outcomes; a lagging
  `EnqueueRun` does reopen one: `DispatchHistory.TerminalExact` and `ResolvedComesBack`.
- `remediation.go` (148-152) calls one run per plan a structural guarantee. The index alone allows a run row on a plan that was
  never approved: `RemediationPlans.FinishRunExact`.
- `backoffFor` is the capped power of two its comment gives only while the base is at most 2^62 ns and the maximum at most
  2^62 + 1 ns: `Backoff.CappedExactly` and `Backoff.BaseExactly`. A base of 2^62 + 1 with a maximum of 10^9 waits 4 ns on the
  third attempt: `Backoff.BigBaseWraps`.
- A retry may start up to a second before its backoff is over, because both times are stored and compared to the second:
  `Scheduler.RetryNeverEarly`.
- `remediation.go` (184-196) takes every plan that is EXECUTING when recovery starts for orphaned. A live process may report one
  meanwhile, and the recovery then stops and leaves the plans after it: `PlanRecovery.RecoveryStepExact` and `RecoveryBeaten`.
- `store.go` (91-95) says incidents have no QUEUED status; `EnqueueRun` sets it, and so does the model.

## Model

| member | source | states |
|---|---|---|
| Redaction.RedactLine | internal/ansible/log_policy.go:370-390 | whatever the key state, the line written ends in a newline exactly when the line read does, and is never empty |
| Redaction.StreamRedactor.RedactOne | internal/ansible/log_policy.go:370-390 | the redactor that updates its key state and process in place writes and becomes what the function on values says |
| Redaction.StreamRedactor.RedactContinuation | internal/ansible/log_policy.go:401-430 | the same for the first line of a scan when an earlier scan already masked its beginning |
| LogScan.RedactRange | internal/ansible/log_policy.go:685-743 | the read loop yields the scan of the part after the record's offset: next record, change flag, text written, and text added to the digest |
| LogMaintenance.RedactOnce | internal/ansible/log_policy.go:763-855 | scanning from where a trusted record leaves off gives the content and record that `RedactLog` defines, including the case where nothing needs to be scanned |
| LogMaintenance.LogDirectory.RedactNewLines | internal/ansible/log_policy.go:747-761 | the active file and record afterwards are those of one `Maintenance` step of the history model |
| LogHistory.MaintenanceHonest | internal/ansible/log_policy.go:763-855 | after a maintenance the whole file is redactor output although only the unscanned part was read, and the record left is again only about redactor output; an unrewritten file is unchanged |
| LogHistory.HistoryHonest | internal/ansible/log_policy.go:544-581 | through every history of writes, truncations, replacements, foreign records, maintenances and maintenances killed between rename and save, the record on disk is only about redactor output |
| LogHistory.TrustedCoversOutput | internal/ansible/log_policy.go:631-650 | in every such history a record the next maintenance would trust covers, in the file as it now is, a chain of redactor outputs that ends in the recorded key state |
| LogHistory.MaintainedIsOutput | internal/ansible/log_policy.go:763-855 | in every such history, right after a maintenance, even one killed before it saved its record, every byte of the log is redactor output |
| LogHistory.ScanLeavesFile | internal/ansible/log_policy.go:799-808 | a scan that changed no line would have written the file back byte for byte |
| LogAppend.AppendsAccounted | internal/ansible/log_policy.go:685-855 | however appended text is cut between maintenances, inside lines, values or keys, the log is what the redactor writes for exactly that text: nothing lost, repeated or reordered |
| LogReader.LogFollowsReader | internal/ansible/log_policy.go:685-855 | for any appends with a maintenance after each, cut inside lines, values or keys, the log is what a reader without file, offset, digest or record writes for the same text with the same pauses: it masks line by line, takes up a masked or continued line where it stands, reads an untouched unfinished line again, and carries only an open key over a pause |
| LogPass.RedactFile | internal/ansible/log_policy.go:857-907 | the full-file loop writes the one-pass redaction of the whole text |
| LogPass.IncrementalIsFullPass | internal/ansible/log_policy.go:370-390 | when no maintenance falls inside a line or an open key, any number of incremental scans leaves byte for byte what one full pass over everything written would |
| LogKeys.LogIsRun | internal/ansible/log_policy.go:685-743 | for whole lines appended in any batches with a maintenance after each, also inside an open key, the log is the lines judged one by one, every maintenance resuming from the key state its record saved |
| LogKeys.KeyBlockAnyCuts | internal/ansible/log_policy.go:322-390 | on the log, the lines of a key block whose records belong to the key's process are masked one and all whatever maintenances fell between them, and the key is over exactly when END was among them |
| LogKeys.CutsDoNotShow | internal/ansible/log_policy.go:692-698 | two logs that got the same lines in batches differing only inside a key block read the same up to the end of the block |
| LogKeys.SavedKey | internal/ansible/log_policy.go:685-743 | the key state in the record a maintenance saved is the redactor's after the last line |
| LogKeys.CarriedKeyStops | internal/ansible/log_policy.go:355-390 | on the log, when a saved record carries an open key over and no END follows, the lines up to the first RECAP or record of another process are masked, and the rest reads as if no key had been open |
| LogCoverage.LogShows | internal/ansible/log_policy.go:322-390 | the log told from its lines alone: for whole lines appended in any batches with a maintenance after each, a line shows as the placeholder with its own line ending exactly when it begins a key or a key covers it, and masked otherwise; a key covers the lines after its BEGIN up to its END, or, once a maintenance fell inside it, up to a record of another process, its process's RECAP, or any record when its process is unknown |
| LogCoverage.PlainLogMasked | internal/ansible/log_policy.go:370-390 | a log without private keys is its lines, each one masked |
| LogContinuation.CutLineShown | internal/ansible/log_policy.go:401-475 | after any log of whole lines, a line that comes in any number of pieces with maintenances between them shows, while it is unfinished, as its pieces are seen: of a key nothing but the placeholder, of a value nothing up to the first character that ends it, a record that stops the key judged on its own, and anything else judged together with what was shown before |
| LogContinuation.CutLineThenNext | internal/ansible/log_policy.go:401-475 | the same for the finished line, and the line after it shows as a line of the key that is still open, or on its own |
| LogContinuation.UntouchedReadAgain | internal/ansible/log_policy.go:685-743 | an unfinished line in which nothing was masked is read again from its beginning and does not show that it was cut |
| LogRotation.RunKeepsInv | internal/ansible/log_policy.go:108-184 | through every run of the rotation protocol, failed or killed between any two steps, with the active log and every renamed log that a process still holds written to at any moment, the record, the renamed-aside logs, path.1 and the point reached stay consistent |
| LogRotation.RenamedLogSurvives | internal/ansible/log_policy.go:927-973 | with retention of at least one, a renamed log holds everything its writers gave it until the redaction that detaches them, which takes all of it; after that it is still there, made from that redaction, or was installed as path.1 with the newest lines of a redacted text made from it, within the size bound; nothing is trimmed before the first redaction and no log is dropped |
| LogRotation.LeavesOnlyAsRotated | internal/ansible/log_policy.go:958-973 | a renamed-aside log leaves its name only in the step that makes it path.1, when no writer holds it any more, as the longest run of newest lines below the size bound of a redacted text made from the redaction of everything it was given |
| LogRotation.RotatedIsOutput | internal/ansible/log_policy.go:159-173 | in every run, whatever is appended after the scan or after the rename, path.1 holds nothing the redactor did not emit, from a line boundary on, unless something else put it there; and from the moment a rotation goes on to replace it that holds whatever it was |
| LogRotation.LateTextReachesAside | internal/ansible/log_policy.go:918-937 | whatever is appended to an oversized log after its scan, before and after its rename, is in the renamed log that is redacted, right behind what the scan wrote |
| LogRotation.TrimTail | internal/ansible/log_policy.go:1063-1104 | a text within the limit, or without one, is kept whole; of any other the longest run of newest lines that stays below the limit |
| LogRotation.RotatesOnlyOversized | internal/ansible/log_policy.go:159-161 | a log is renamed only in a rotation, and a rotation starts only when the check sees a log above a positive bound |
| LogRotation.ActiveKept | internal/ansible/log_policy.go:927-950 | with retention a step of a maintenance leaves the active log as it is, puts its redaction in its place, or renames it aside |
| LogRotation.ScanIsMaintenance | internal/ansible/log_policy.go:747-761 | the scan step and the save after it do to log and record what one maintenance of the history model does |
| LogRotation.RecoveryGoesOn | internal/ansible/log_policy.go:108-120 | unless it is killed, a maintenance that takes up interrupted rotations goes on to redact the active log, whether they can be finished or not, and every action brings it nearer |
| LogRotation.RecoveryInstalls | internal/ansible/log_policy.go:1022-1060 | a leftover that a maintenance takes up and nothing interrupts becomes path.1 as the longest run of newest lines of its full redaction below the bound |
| LogRotation.RotationInstalls | internal/ansible/log_policy.go:927-973 | so does the log of a rotation left alone, which leaves no record and an active log, the one already there if there is one |
| LogRotation.OldRemovedFirst | internal/ansible/log_policy.go:1133-1148 | in every run, with one retained log, the old path.1 is gone before the new one is moved there |
| LogRotation.OversizedEmptied | internal/ansible/log_policy.go:165-179 | without retention a maintenance left alone replaces an oversized log by an empty one, drops its record and changes nothing else |
| LogRotation.LeftoverDropped | internal/ansible/log_policy.go:958-962 | and removes the leftover of a rotation made under another policy |
| ShardBound.LoadsConserveCost | scripts/ci-go-test-shards.py:120-126 | the shard loads of any assignment add up to the total cost |
| ShardBound.GreedyBound | scripts/ci-go-test-shards.py:120-126 | the largest greedy load is at most (2 - 1/m) times, and for jobs placed longest first at most (4/3 - 1/(3m)) times, the largest load of any assignment of the same jobs to m shards |
| ShardPartition.PlanCovers | scripts/ci-go-test-shards.py:111-132 | for acceptable input every test is in exactly one shard, no shard is empty, shards and lists are sorted, every recorded weight is the measured time or 1000 for a test that has none, the recorded totals add those weights up, and the tests without a time and the times without a test are listed exactly |
| ShardPartition.PlanNearOptimal | scripts/ci-go-test-shards.py:111-132 | in the measured times, with 1000 ms for a test that has none, the slowest shard is within (4/3 - 1/(3m)), hence within (2 - 1/m), of the slowest shard of any other split of the same tests into as many shards |
| ShardPartition.PlanIsListSchedule | scripts/ci-go-test-shards.py:119-126 | the plan comes from placing the tests by falling time, ties by name, each on the lowest numbered of the shards that are least loaded at its turn |
| ShardPartition.PlanOfPermutation | scripts/ci-go-test-shards.py:111-119 | the plan depends on the set of names, not on the order they were discovered in |
| ShardPartition.PlaceAll | scripts/ci-go-test-shards.py:120-126 | the loop over mutable shards and totals builds the buckets and loads of the greedy assignment |
| ShardPartition.Partition | scripts/ci-go-test-shards.py:111-132 | succeeds exactly when there are at least as many tests as shards and at least one shard, no test twice, every name a test name other than TestMain and every weight positive; returns the plan, so its own final coverage check never fires |
| TestEvents.EventsReport | scripts/ci-go-test-shards.py:226-303 | the streaming loop over its two dictionaries returns the report, or the refusal, of the fold |
| TestEvents.TestLifecycleExact | scripts/ci-go-test-shards.py:246-276 | a test's own events are accepted and end well exactly when they are run, then any of pause, cont and output, then one pass or skip |
| TestEvents.PackageLifecycleExact | scripts/ci-go-test-shards.py:277-293 | a package's own events are accepted and end well exactly when they are one start and later one pass or skip with only output besides |
| TestEvents.AcceptsExactly | scripts/ci-go-test-shards.py:226-303 | a stream is accepted exactly when no line is bad, there is a package, every package and every test has a complete lifecycle, and every test's package appears |
| TestEvents.InterleavingIrrelevant | scripts/ci-go-test-shards.py:226-303 | two streams with the same events per test and per package give the same report or are both refused |
| TestEvents.ReportLists | scripts/ci-go-test-shards.py:294-303 | an accepted report lists exactly the tests that have events, each in one of its packages |
| TestEvents.ClassifyExact | scripts/ci-go-test-shards.py:229-248 | a line is about a test, about a package or a note of the build exactly when its fields say so; every other line is bad |
| TestReport.EventsAboutExact | scripts/ci-go-test-shards.py:236-277 | the events about a test or a package are those of exactly the lines about it, in order |
| TestReport.ReportTells | scripts/ci-go-test-shards.py:246-303 | in an accepted report the tests come by package and name; each row has one run, the verdict and time of the test's last event and, for a skip only, the first 1000 characters of the last thing the test printed that is not one of Go's markers; each package row has the verdict and time of its last event |
| ShardGate.VerifiedReports | scripts/ci-go-test-shards.py:377-399 | true exactly when every report repeats what its own events and manifest say |
| ShardGate.VerifyRun | scripts/ci-go-test-shards.py:402-451 | the gate's loops accept exactly what `Demanded` spells out shard by shard: valid shard counts, a clean tree, exactly the expected artifacts, each a successful shard report of this run that repeats its own events, with the hashes of this configuration and, when split, these weights, the group's packages, the partition rebuilt from the discovered tests and exactly its shard's tests; one manifest per group; no package in two groups |
| ShardGate.AcceptsExactly | scripts/ci-go-test-shards.py:402-451 | the script's checks in its order over its matrix are equivalent to those demands on every shard |
| ShardGate.DiscoveryExact | scripts/ci-go-test-shards.py:87-108 | discovery that succeeds saw a complete stream of just its package in which no test ran, and gives the names its output lists, sorted, each once, at least one |
| ShardGate.SelectionExact | scripts/ci-go-test-shards.py:161-167 | for a one-package report the selected top-level names are exactly those with events in the stream |
| ShardGate.AcceptedShard | scripts/ci-go-test-shards.py:402-451 | all shards of an accepted group recorded one and the same sound partition of the tests discovered |
| ShardGate.AcceptedRanExactlyOnce | scripts/ci-go-test-shards.py:402-451 | if the gate accepts, every discovered test of a sharded group started exactly once over all its shards and lived a complete lifecycle in the shard that owns it |
| ShardGate.AcceptedRanOnlyDiscovered | scripts/ci-go-test-shards.py:402-451 | if the gate accepts, a top-level test with events in a shard is one of the group's discovered tests |
| DependencySearch.SearchExact | internal/decommission/dependency.go:49-82 | visiting all nodes in any order, with any repetition, fails exactly when the graph has a cycle, naming a node on one, and otherwise lists every node once, providers first |
| DependencySearch.TeardownExact | internal/decommission/dependency.go:34-89 | a cycle is reported exactly when the selected components have one, and the component named lies on one; otherwise each distinct selected component is listed once, every consumer before every selected provider |
| DependencySearch.TeardownIgnoresInputOrder | internal/decommission/dependency.go:76-88 | inputs with the same components, in whatever order and however often repeated, give the same result |
| DependencySearch.TeardownIgnoresListing | internal/decommission/dependency.go:57-63 | the order in which contracts list their dependencies does not matter |
| DependencySearch.Visitor.Visit | internal/decommission/dependency.go:49-74 | the recursive visit that mutates the colours, the build order and the cycle note leaves the state of the search on values |
| DependencySearch.ReverseBuildOrder | internal/decommission/dependency.go:84-88 | the array loop yields the build order reversed |
| DependencySearch.ResolveTeardownOrder | internal/decommission/dependency.go:34-89 | the whole procedure returns the teardown result that the search defines |
| DependencySearch.ValidateDependencyCycles | internal/contract/lint.go:417-448 | succeeds exactly when the catalog's dependency graph has no cycle, for every order in which the map is walked |
| RemediationPlans.RunKeepsInv | internal/agentcontroller/remediation.go:99-223 | under every interleaving of proposals, decisions, executions, reports, recoveries and killed processes, each plan's decision rows, run rows and moments fit its state |
| RemediationPlans.DecidedAtMostOnce | internal/agentcontroller/approval.go:47-100 | in every run a plan has at most one decision row, with a named actor, the plan's own hash and a time within its deadline |
| RemediationPlans.ExecutionAuthorized | internal/agentcontroller/remediation.go:114-146 | in every run a plan enters EXECUTING at most once, within its deadline, after one approval of its own hash within the deadline, and without any rejection |
| RemediationPlans.RunIffOutcome | internal/agentcontroller/remediation.go:148-182 | in every run a plan has a run row exactly when it is in an outcome state, only one, and the row carries that outcome |
| RemediationPlans.FinishOnce | internal/agentcontroller/remediation.go:153-182 | for a plan that entered execution a report succeeds exactly while the plan is still EXECUTING, so a late report after recovery is refused |
| RemediationPlans.FinalStays | internal/agentcontroller/remediation.go:99-223 | no continuation of any run changes the row of a rejected, expired or finished plan |
| RemediationPlans.FinishRunExact | internal/agentcontroller/remediation.go:153-182 | FinishRun on its own keeps run rows and outcome states together exactly when the plan is already finished, or EXECUTING with an outcome to record |
| RemediationPlans.FinishRunUnguarded | internal/agentcontroller/remediation.go:165-176 | reporting on a plan nobody approved stores a run row and leaves the plan PROPOSED |
| PlanStore.Store.CreatePlan | internal/agentcontroller/remediation.go:57-70 | succeeds exactly for a new id; the plan is PROPOSED, its deadline is the one given, cut to the second, and all else is kept |
| PlanStore.Store.RecordApprovalDecision | internal/agentcontroller/approval.go:47-100 | succeeds exactly for a named actor on a PROPOSED plan with that hash within its deadline, then adds one row and moves the plan; otherwise at most expires an overdue plan |
| PlanStore.Store.MarkExecuting | internal/agentcontroller/remediation.go:120-146 | succeeds exactly on an APPROVED plan within its deadline and leaves it EXECUTING; an overdue plan is left EXPIRED |
| PlanStore.Store.FinishRun | internal/agentcontroller/remediation.go:153-182 | the insert and the guarded update together, or nothing when the plan is unknown or already has a run row |
| PlanStore.Store.RecoverOrphanedExecutingPlans | internal/agentcontroller/remediation.go:197-223 | the loop leaves the tables, the count and the verdict of the recovery function, stopping at the first refusal |
| PlanStore.RecoverExact | internal/agentcontroller/remediation.go:216-222 | recovery closes the orphans in order up to the first that already has a run row, adding one EXECUTION_FAILED row each and changing nothing else |
| PlanStore.RecoverCloses | internal/agentcontroller/remediation.go:197-223 | on tables where run rows and outcomes agree, recovery completes, leaves no plan EXECUTING and keeps them in agreement |
| PlanRecovery.RecoveryStepExact | internal/agentcontroller/remediation.go:216-221 | a recovery closes the next plan it read and goes on exactly when that plan is still EXECUTING; otherwise it ends having changed nothing |
| PlanRecovery.RecoveryClosesAll | internal/agentcontroller/remediation.go:197-223 | under every interleaving in which no plan it read is reported before it gets there, a recovery that ends without being killed leaves all of them in outcome states |
| PlanRecovery.RecoveryBeaten | internal/agentcontroller/remediation.go:216-221 | any two plans can come to be EXECUTING with one process left, running the first, and a recovery that has read both; when that process reports before the recovery commits, the recovery ends and the second plan stays EXECUTING with no call left to close it |
| PlanStore.AloneIsTwoSteps | internal/agentcontroller/approval.go:47-100 | a decision or execution that nothing interrupts is its read step followed by its commit step of the interleaved model |
| PlanStore.BudgetCountsPlans | internal/agentcontroller/policy_gather.go:161-173 | in every run the three-table join counts the incident's plans that a policy actor approved and that have a run: none twice, none missed |
| Incidents.IngestKeeps | internal/agentcontroller/incident.go:94-241 | ingesting any event keeps one active incident per identity, one run in flight per incident, and statuses that agree with the runs |
| Incidents.EnqueueKeeps | internal/agentcontroller/incident.go:384-420 | a committed EnqueueRun keeps the same, whatever status the incident had |
| Incidents.RunKeeps | internal/agentcontroller/incident.go:423-534 | StartRun, CompleteRunDiagnosed and FailRunAndMaybeRetry on a run in flight keep the same |
| Incidents.RecoverKeeps | internal/agentcontroller/incident.go:547-601 | recovery keeps the same and leaves no run in flight |
| Incidents.ReplayExact | internal/agentcontroller/incident.go:185-193 | a second delivery of an event changes nothing but updated_at exactly when it is a firing event; a repeated resolve records another row |
| Incidents.FiringIdempotent | internal/agentcontroller/incident.go:185-193 | any number of further deliveries of a firing event changes nothing but updated_at |
| Incidents.IngestAudited | internal/agentcontroller/incident.go:263-275 | ingesting keeps the event rows of every incident numbered 1, 2, ..., current revision |
| Incidents.EnqueueTerminalExact | internal/agentcontroller/incident.go:401-414 | EnqueueRun keeps terminal incidents terminal exactly when a key or an index refuses it or its incident is not terminal |
| Incidents.IngestMeans | internal/agentcontroller/incident.go:151-261 | an event does to the row of its active incident, status by status, what the source says: a repetition touches it, a resolve closes it, a changed firing event reopens a DIAGNOSED or AGENT_FAILED one with attempts 0 and no backoff and leaves the status of any other; without an active row it adds one; every change adds one event row |
| Incidents.RunMeans | internal/agentcontroller/incident.go:384-534 | enqueue, start, diagnosis and failure put run and incident in QUEUED, INVESTIGATING, DIAGNOSED, and OPEN until the backoff ends or AGENT_FAILED; a resolved, closed or suppressed incident is not touched by the last three |
| Incidents.RecoverMeans | internal/agentcontroller/incident.go:547-601 | recovery fails exactly the runs in flight and leaves their incidents OPEN without a backoff, unless resolved, closed or suppressed |
| IncidentStore.Store.IngestEvent | internal/agentcontroller/incident.go:94-261 | has the effect `Ingested` spells out status by status; refused exactly when there is no active row and the drawn identifier is taken; reports a change exactly when an event row was added, and a dispatch exactly when a new incident is OPEN or a DIAGNOSED or AGENT_FAILED one fires again with another body |
| IncidentStore.Store.EnqueueRun | internal/agentcontroller/incident.go:384-420 | commits exactly when the primary key, the foreign key and both unique indexes allow it, then the run and its incident are QUEUED, the backoff is gone and the counter is one higher; otherwise nothing changes |
| IncidentStore.Store.StartRun | internal/agentcontroller/incident.go:423-448 | refused exactly when the unique index forbids reviving a finished run; otherwise marks the run and, unless it is resolved, closed or suppressed, its incident INVESTIGATING; sound tables stay sound |
| IncidentStore.Store.CompleteRunDiagnosed | internal/agentcontroller/incident.go:452-490 | the same for DIAGNOSED; afterwards the incident has no run in flight |
| IncidentStore.Store.FailRunAndMaybeRetry | internal/agentcontroller/incident.go:499-534 | retries exactly while attempts are left: the incident is OPEN with the end of the backoff stored to the second, and AGENT_FAILED without one otherwise; a resolved, closed or suppressed incident is left alone and the attempt counter is not touched |
| IncidentStore.Store.RecoverInFlightRuns | internal/agentcontroller/incident.go:547-601 | the loop, in whatever order the rows come, fails every run in flight and reopens its incident unless it is resolved, closed or suppressed |
| IncidentStore.RecoverAllExact | internal/agentcontroller/incident.go:580-595 | recovering the runs one after another in any order equals recovering them all at once |
| Scheduler.RunKeepsInv | internal/agentcontroller/queue.go:51-150 | under every interleaving of passes, dispatch goroutines, webhooks, goroutines that give up and restarts, the tables stay sound and every goroutine's snapshot, attempt number and run stay valid |
| Scheduler.StatusAgrees | internal/agentcontroller/incident.go:384-601 | in every run QUEUED and INVESTIGATING incidents have exactly one run in flight in the same state, OPEN, DIAGNOSED and AGENT_FAILED ones none, and no identity has two non-terminal incidents |
| Scheduler.RetryDue | internal/agentcontroller/incident.go:312-351 | a failed run with attempts left is dispatchable again exactly from the end of its backoff, cut to the second, on |
| Scheduler.RetryNeverEarly | internal/agentcontroller/incident.go:515-525 | it is never dispatchable before its backoff is over exactly when the backoff ends on a whole second |
| Scheduler.RetryEarly | internal/agentcontroller/incident.go:515-525 | a failure at 10.9 seconds with a backoff of 10 seconds is dispatchable at 20 seconds |
| Scheduler.DueAtOnce | internal/agentcontroller/incident.go:219-234 | an incident whose run a restart cut short and that is not resolved, closed or suppressed, and a DIAGNOSED or AGENT_FAILED one whose alert fires again with another body, is dispatchable at once |
| Scheduler.PassedOver | internal/agentcontroller/queue.go:71-83 | the next incident of a pass gets its goroutine unless its host has as many runs as allowed or the pass has already taken one of the host's incidents; without a host, or after a failed count, always |
| Scheduler.PassBegins | internal/agentcontroller/queue.go:52-59 | a pass goes on exactly when fewer runs are in flight than allowed, with a budget of the difference |
| Scheduler.PassEnds | internal/agentcontroller/queue.go:61-64 | errors end a pass and change no table: a failed listing at once, or every goroutine giving up |
| Scheduler.ListingFair | internal/agentcontroller/incident.go:313-328 | no due incident is overtaken: the first listed was updated no later than any due one, one that is not listed no earlier than any listed, and with room left every due incident is listed |
| DispatchBounds.GlobalLimit | internal/agentcontroller/queue.go:51-96 | at every moment of every run no more runs are in flight than MaxConcurrentRuns |
| DispatchBounds.HostLimit | internal/agentcontroller/queue.go:71-93 | at every moment of every run whose host counts succeed, no named host has more runs in flight than MaxRunsPerHost |
| DispatchBounds.ConsiderHostExact | internal/agentcontroller/queue.go:73-83 | taking the next listed incident keeps its host within the limit exactly when the count query succeeded or there was room anyway |
| DispatchBounds.CountErrorExceeds | internal/agentcontroller/queue.go:74-82 | for any two alerts on a named host limited to one run there is a run of the scheduler, with one failed host count, that has two runs in flight on that host |
| DispatchHistory.AttemptsBounded | internal/agentcontroller/queue.go:98-150 | between two changed firing events an incident gets at most max(MaxDispatchAttempts, 1) runs plus one per restart that cut one short, and the stored counter is the number of runs it had |
| DispatchHistory.AttemptIsCounter | internal/agentcontroller/queue.go:125-127 | in every run from an empty store, one more than the attempts a goroutine read, which is what its retry decision goes by, is the stored counter, and its incident is neither OPEN nor queued again |
| DispatchHistory.DiagnosisNotRepeated | internal/agentcontroller/queue.go:147-149 | in every run, between a stored diagnosis of an incident and any later run enqueued for it, a changed firing event reopened it |
| DispatchHistory.TerminalExact | internal/agentcontroller/incident.go:401-414 | a terminal incident stays terminal through a step unless, and only unless, its own EnqueueRun commits in that step |
| DispatchHistory.TerminalStays | internal/agentcontroller/incident.go:384-601 | through a whole run without such a step a terminal incident stays terminal |
| DispatchHistory.ResolvedComesBack | internal/agentcontroller/queue.go:98-116 | for every incident identity there is a run in which a resolve lands between listing and enqueue and the resolved incident becomes QUEUED |
| DispatchHistory.EventsNumbered | internal/agentcontroller/incident.go:263-275 | in every run from an empty store the event rows of each incident number its revisions 1, 2, ..., current, none missing or repeated |
| Backoff.BackoffFor | internal/agentcontroller/queue.go:153-168 | the loop in wrapping 64-bit arithmetic; never above the maximum, and positive when the maximum is |
| Backoff.CappedExactly | internal/agentcontroller/queue.go:153-168 | the delay is min(base * 2^(n-1), max) for every base from 1 to 2^62, above the maximum or not, and every attempt exactly when the maximum is at most 2^62 + 1 nanoseconds |
| Backoff.BaseExactly | internal/agentcontroller/queue.go:153-168 | for a maximum from 5 to 2^62 + 1, it is so for every base up to a bound exactly when the bound is at most 2^62 |
| Backoff.WrapsShort | internal/agentcontroller/queue.go:158-163 | above a maximum of 2^62 + 1 a base of 2^61 + 1 makes the fourth attempt wait 8 nanoseconds |
| Backoff.BigBaseWraps | internal/agentcontroller/queue.go:158-163 | under any maximum above 4 a base of 2^62 + 1 makes the third attempt wait 4 nanoseconds |
| AccessPolicy.ResolveSubject | internal/accessportal/hbac.go:12-26 | matches exactly when the category is all, the user is named, or one of the rule's groups is among the user's; lists those groups in order |
| AccessPolicy.ResolveHost | internal/accessportal/hbac.go:32-61 | matches exactly when the category is all, the canonical name is listed, or an expanded group holds it; lists those groups in order |
| AccessPolicy.ResolveSshAccess | internal/accessportal/resolver.go:105-120 | the loop collects the sources of the granting rules in order |
| AccessPolicy.ResolveSudoAccess | internal/accessportal/resolver.go:122-167 | the loop over its two sets and two flags collects what the granting rules allow and deny |
| AccessPolicy.FilterLosesNothing | internal/accessportal/policysnapshot.go:132-176 | whenever evaluating all rules with all groups expanded succeeds, the filtered snapshot loads and gives every host the same granting rules with the same provenance, the same commands and the same sudo scope |
| AccessMeaning.SshMeaning | internal/accessportal/resolver.go:105-120 | a host is allowed exactly when some rule of the whole directory is enabled and names the user, the host and sshd, directly, by category or through a group |
| AccessMeaning.SourcesTell | internal/accessportal/hbac.go:85-115 | every source shown names a rule that lets the user in, and says truly whether user and host are named directly and through which groups they matched |
| AccessMeaning.SshExact | internal/accessportal/resolver.go:105-120 | the sources shown are those of the rules that let the user in: one for each, in the directory's order, and each tells how user and host met its rule, with the groups in the rule's order |
| AccessMeaning.SudoMeaning | internal/accessportal/resolver.go:122-167 | a command is shown as allowed or denied exactly when a rule names it, directly or through a group, that is enabled, past its start and before its end, each if it has one, and names the user and the host; a rule is shown exactly when it is such a rule |
| AccessMeaning.SudoExact | internal/accessportal/resolver.go:122-167 | the rules shown are those in force for user and host, in the directory's order; the commands are sorted, each once |
| AccessMeaning.ScopeMeaning | internal/accessportal/sudo.go:53-64 | the display scope says exactly whether any rule is in force, whether one grants every command, and whether one also denies |
| AccessMeaning.LoadsExactly | internal/accessportal/policysnapshot.go:151-164 | loading is refused exactly when a group cannot be read that an enabled rule for the user, for sudo one also within its start and end, refers to |
| AccessDirectory.HostMetadataCache.Get | internal/accessportal/policysnapshot.go:72-85 | the first answer for a host is kept and returned ever after, whatever the server answers later |
| AccessDirectory.MergeRecording | internal/accessdirectory/resolver.go:112-123 | the result is one of the two policies; an invalid marker on either side is never hidden, and it is known exactly when one side is |
| AccessDirectory.MergeHolds | internal/accessdirectory/resolver.go:46-79 | after any number of scopes a host has a target exactly when one of them granted it, with the snapshot's access, the first host_show answer and one route per granting scope |
| AccessDirectory.DirectoryExact | internal/accessdirectory/resolver.go:46-123 | refused exactly when there are scopes and none can be read; otherwise one target per granted host, strictly ordered by name, with one route per granting scope in scope order, ready exactly when it has a gateway; every granting scope lists the host, and with the SSH, sudo and recording facts of the target; the recording is unknown when host_show failed or the marker was unreadable, invalid with its reason, or the mode |
| AccessDirectory.RoutesByScope | internal/accessdirectory/resolver.go:46-123 | in whatever order the scopes come, a target's routes are those of the scopes that grant it, sorted by scope |
| DirectoryLoader.ResolveScopeAccess | internal/accessportal/policysnapshot.go:183-229 | the loops list the scope's reachable hosts in order and leave the cache with one answer per listed host |
| DirectoryLoader.LoadDirectoryAccess | internal/accessdirectory/resolver.go:35-94 | the nested loops over byFQDN, order and the cache return the declared directory |
| DirectoryLoader.CatalogExact | internal/accessdirectory/catalog.go:40-88 | one route per published target group in strictly increasing scope order, whatever order the groups came in, named after its scope, through the canonical members, sorted, each once, of its gateway group; a missing or unreadable gateway group only empties its own route |
| DirectoryLoader.CatalogInOrder | internal/accessdirectory/catalog.go:86-88 | scopes read in catalog order meet the ordering that the directory results rely on |
| DirectoryLoader.DirectoryMeaning | internal/accessdirectory/resolver.go:46-93 | a host is listed exactly when it is a member of a readable scope's target group and some rule of the directory lets the user in |

## Left out

- The internals of `RedactSecrets`, `redactFlags` and the regular expressions: opaque functions on lines.
- A writer appending between the reads of one scan and its rename, symlinked logs, process liveness of temporary files, file modes and fsync failures.
- LogMaintenance.RedactOnce: one scan stands for the source's check pass and write pass, which read the same text when no writer appends in between; file identity is always known.
- Rotated logs older than path.1: the code keeps only path.1 (`log_policy.go` 1130-1132).
- Retention of zero files: `LogRotation` takes the steps, but its survival results assume at least one retained file.
- `RunOnce` as one method: its goroutines interleave with webhooks and each other, so it is the steps Counts, Lists, Considers, Works and Finishes of `Scheduler` instead.
- ShardGate.AcceptedRanExactlyOnce: is about top-level tests and assumes that test names contain no slash, which the name pattern of the script implies.
- DirectoryLoader.LoadDirectoryAccess: sorts the host names before looking their targets up, where the source sorts the targets by host name.
- SUPPRESSED and CLOSED are statuses nothing in the controller sets; the guards on them are modelled, but no run reaches them.
- Evidence rows, run inputs and outputs, severities and other columns that no branch reads.
- `EvaluatePolicy` and the order of its guards: the budget result is about the count it reads, not about the decision.
- Reapply plans (the same machine on other tables), circuit breakers, autonomy mode, status, metrics, configuration, command line, HTTP and MCP.
- Cancellation in `queryBatch`, FreeIPA RPC, Ansible, GitHub and YAML; server answers are parameters.
- FQDN canonicalisation is a parameter; results hold for any such function.
- JSON parsing of event lines and artifacts, weight files and shard label strings.
