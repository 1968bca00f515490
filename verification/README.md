# ResourceMonitorServer: a verified model

ResourceMonitorServer spreads factory processes over service instances, runs one analysis job for each
(process, interval), folds layered profiles into the one each machine runs, compiles measures to
Elasticsearch aggregations, evaluates rules over the parsed answers, and sends mail behind a cooldown.
This project models that logic in Dafny and proves what it is relied on for. `dafny verify dfyconfig.toml`
checks everything.

## How the files fit together

* **Ownership of processes.** `Partition` is the round-robin split, `Ownership` the election epoch, the
  published redistributions and the newest-key-wins rule as a step system over instances, `Redistribute`
  the leader's retry machine.
* **The job table.** `JobIds` prints and parses job ids, `Scheduler` is the scheduler class with its two
  job-set mutators, `SchedulerRuns` interleaves them with deliveries and Mongo failures at await points,
  `Cadence` ties the table to the stored profiles.
* **Profiles.** `Profiles` holds the models, their validators and the fold, `Cascade` which documents
  reach a machine and the cheaper cadence query, `Repository` the collection and the reference check,
  `WriteValidation` the validated write, `ProfileEdits` concurrent item edits.
* **Analysis.** `MetricQuery` is the query compiler, an interpreter of the aggregation tree and the
  response parser, `MetricMeaning` its correctness, `Threshold` rule evaluation, `Analysis`, `Buckets` and
  `Ticks` one tick with signature bucketing, `AlertMeaning` what a tick's alerts say of the stored rows.
* **Mail.** `Cooldown` is the cooldown store, `Dispatch` the grouped sending, `AnalysisLock` the lock
  around a tick, `RateLimit` the ticks of all processes against one Redis, `TickSteps` a dispatch as such a
  tick, `BodyCap` the UTF-8 body cap.
* **Shared.** `Wrappers`, `Sorting` (a stable sort), `Dicts` (insertion-ordered dictionaries),
  `FactCatalog`.

Metric values are reals, instants integers, and Python dictionaries insertion-ordered sequences of pairs
wherever their order is claimed. What the outside world answers is a parameter: Mongo reads, the search
engine's choices (`MetricQuery.Engine`: group order, percentile estimates, ties for the newest row), the
mail gateway, clocks, and whether Redis is reachable. A signature is the canonical content that the
program hashes. Percentiles are a function of the multiset of values.

## What turned out to need a condition

* Job ids: a negative interval's minus sign can be read as part of a process name, so two pairs share an
  id. `JobIds.RoundTripIff`, `JobIds.SameIdIff`, `Scheduler.ReloadRegistersAllIff`,
  `Scheduler.ReconcileRegistersAllIff` and `Scheduler.QuietAfterReloadIff` say exactly when, and
  `Cadence.NoCadenceLostByReloadIff` and `Cadence.NoCadenceLostByReconcileIff` which rules then go unserved.
* Reconciles: a registered id that does not read back, such as that of an empty process name, is never
  removed, and a wanted pair that does not read back is re-registered and reported as a change every time
  (`Scheduler.ReconcileMatchesReloadIff`, `Scheduler.JobKeptIff`, `Scheduler.ChangeReportRightIff`,
  `SchedulerRuns.EmptyNameStays`).
* Deliveries: the order of assignment payloads is irrelevant exactly when the payloads with the winning
  key agree (`Ownership.DeliveryOrderIrrelevantIff`).
* Scopes: a scope with something specific below a wildcard is stored but never folded for any machine; a
  write is checked as it will run exactly at the other scopes (`WriteValidation.ValidationSeesWhatRunsIff`,
  `WriteValidation.NonCanonicalNeverFolded`).
* Models: a machine without a model speaks for itself in a channel grouped by model, so it shares a mail with
  the machines whose model is its own id (`Dispatch.ShareGroupIff`).
* Index days: only the first and last day of a window are searched, which misses no row exactly when the
  window touches at most two days (`MetricMeaning.NoRowMissedIff`).
* Group limits: an answer is complete exactly with at most 30000 machines, 1000 procs and 1000 instances with
  rows (`MetricMeaning.QueryIsGroupingIff`). Machines that share a query get their own values exactly when its
  response does not leave them out, and beyond 30000 with rows someone is (`Analysis.ComputedLocallyIff`,
  `Analysis.AllHeardIff`, `Analysis.SharedAnswersAreOwnIff`); the tick is proved per machine.
* Item edits: a request that names a newer version than it loaded can overwrite another edit
  (`ProfileEdits.ClaimingNewerLosesAnUpdate`); one that names an older version is refused.
* Cooldown keys: an identity has its key to itself exactly when none of its parts has a colon
  (`Cooldown.KeyIsOwnIff`).
* Cooldowns in an outage: an instance knows only the sets it made itself, for an hour each, so a cooldown
  set on another instance does not suppress there (`Cooldown.NotCoolingInWindowIff`,
  `Cooldown.OtherInstanceForgets`, `Cooldown.LongCooldownOutlivesLocal`).
* Cooldowns of 0 or fewer minutes: Redis refuses the expiry after the mail has left, and the rest of the
  tick's groups go unsent (`Dispatch.DispatchPending`, `Dispatch.ZeroCooldownCutsTick`).
* The tick lock excludes while sessions live; a session lost inside lets a second body in
  (`AnalysisLock.LostSessionLetsIn`, `AnalysisLock.BothInside`).
* The body cap holds exactly when the body already fits or the cap has room for the 18-byte marker
  (`BodyCap.CapHoldsIff`).

Where code and documentation disagree the code is followed: `resolve_profile`'s comment speaks of the
narrower document's `enabled` while the fold decides per rule; SCHEMA.md describes `spike_count` as values
beyond the boundary while the query's range includes the boundary itself.

## Model

| member | source | states |
|---|---|---|
| `Partition.ComputeAssignments` | src/distributed/partition_manager.py:473-483 | the round-robin loop computes the split specified by dealing one process at a time |
| `Partition.SplitIsRoundRobin` | src/distributed/partition_manager.py:477-482 | with distinct instances the j-th smallest of n gets exactly the processes at positions j, j + n, j + 2n and so on of the ascending list, in that order |
| `Sorting.StrLeIff` | src/distributed/partition_manager.py:477-478 | ascending means by code point: a prefix first, else smaller at the first difference |
| `Partition.SplitIsPartition` | src/distributed/partition_manager.py:473-483 | every process read goes to exactly one instance, and nothing else is assigned |
| `Partition.SplitIsBalanced` | src/distributed/partition_manager.py:473-483 | no instance gets two processes more than another |
| `Partition.SplitForgetsOrder` | src/distributed/partition_manager.py:474-483 | the split depends only on which members and processes were read, not on their order |
| `Ownership.PartitionManager.ApplyAssignment` | src/distributed/partition_manager.py:488-515 | a payload is taken up, and handed to the scheduler, exactly when its epoch is greater, or equal with a later time; otherwise, and when it is malformed, nothing changes |
| `Ownership.PartitionManager.OnSessionLost` | src/distributed/partition_manager.py:141-161 | a lost session forgets key and processes |
| `Ownership.LatestWins` | src/distributed/partition_manager.py:488-532 | after any deliveries a member stands where it stood or on one of the payloads, at an epoch and time no older than any of them |
| `Ownership.KeyOnlyRises` | src/distributed/partition_manager.py:503-515 | between session losses the known key never falls |
| `Ownership.DeliveryOrderIrrelevantIff` | src/distributed/partition_manager.py:488-532 | order and duplication of deliveries do not matter if and only if the payloads with the winning key carry one list |
| `Ownership.LeaderElection.OnBecomeLeader` | src/distributed/leader_election.py:135-162 | the epoch written back is one more than the stored one (1 when there is none), and it is the epoch the instance leads under |
| `Ownership.EpochsAreFresh` | src/distributed/leader_election.py:135-162 | in every run no epoch is granted twice |
| `Ownership.SameKeyMeansDisjoint` | src/distributed/partition_manager.py:305-358 | in every reachable state two members with one accepted key stand on shares of one redistribution and own no process in common |
| `Ownership.AllHoldingMeansCovered` | src/distributed/partition_manager.py:305-358 | once all instances of a redistribution have its key they own exactly the processes the leader read, evenly |
| `Ownership.DeliveredMeansHasKey` | src/distributed/partition_manager.py:488-532 | in every run a delivered redistribution that no published one beats stays the member's key until its session is lost |
| `Ownership.DeliveriesCover` | src/distributed/partition_manager.py:488-532 | in every run, once a redistribution nothing published beats was delivered to all its instances, each still in that session, they own exactly the processes read, evenly, whatever else was delivered |
| `Ownership.EverybodyServed` | src/distributed/partition_manager.py:305-358 | a run of six steps at whose end two instances own the three processes read |
| `Redistribute.RetryState.OnFailure` | src/distributed/partition_manager.py:361-398 | a failure schedules the next retry with its backoff, or at the fifth reports unhealthy |
| `Redistribute.RetryState.OnSuccess` | src/distributed/partition_manager.py:399-410 | a success ends the streak, clears unhealthy and cancels a pending retry |
| `Redistribute.RetryState.OnRetryWakes` | src/distributed/partition_manager.py:454-471 | a woken retry runs only while this instance still leads |
| `Redistribute.NeverStallsSilently` | src/distributed/partition_manager.py:361-404 | in every run a streak of failures has a pending retry, is reported unhealthy from the fifth failure on exactly, or was given up on purpose |
| `Redistribute.LetGoOnPurpose` | src/distributed/partition_manager.py:454-471 | a streak without a pending retry below the fifth failure was let go by a stop or by waking without leadership, since its last failure |
| `Redistribute.GivesUpAtFifthFailure` | src/distributed/partition_manager.py:361-471 | a streak driven by its own retries turns unhealthy exactly at the fifth failure, after 30 seconds of backoff |
| `Redistribute.BackoffSeconds` | src/distributed/partition_manager.py:454-465 | the backoff is 2, 4, 8, 16 seconds, and 30 from the fifth on |
| `JobIds.RoundTripIff` | src/scheduler/jobs.py:35-38 | a printed id reads back as its pair if and only if the process is a non-empty line and the interval is not negative |
| `JobIds.PrintOfParsed` | src/scheduler/jobs.py:193-201 | whatever an id reads back as prints as that id again |
| `JobIds.SameIdIff` | src/scheduler/jobs.py:183-191 | two pairs share an id if and only if they are one pair or a minus sign is taken for part of a name |
| `Scheduler.AnalysisScheduler.Reload` | src/scheduler/jobs.py:124-175 | rebuilds the table for exactly the pairs read; a Mongo failure leaves the jobs of the processes before it |
| `Scheduler.AnalysisScheduler.CurrentIntervalJobs` | src/scheduler/jobs.py:193-201 | maps each pair the registered ids read back as to the id it prints as |
| `Scheduler.AnalysisScheduler.Reconcile` | src/scheduler/jobs.py:214-262 | does nothing while paused, stopped or without processes, changes nothing on a failed read, else applies the difference and tells whether there was one |
| `Scheduler.ReconcileMatchesReloadIff` | src/scheduler/jobs.py:214-262 | from any table a reconcile ends with the ids of a fresh reload if and only if every registered id that does not read back is one a wanted pair prints |
| `Scheduler.EmptyNameIsNeverRemoved` | src/scheduler/jobs.py:193-201 | the input that fails: a job of the process with the empty name stays although nothing wants it |
| `Scheduler.JobKeptIff` | src/scheduler/jobs.py:244-262 | a job there before and after a reconcile is the very same one if and only if no wanted pair that does not read back prints its id |
| `Scheduler.ChangeReportRightIff` | src/scheduler/jobs.py:244-262 | True is returned exactly when the ids change, from every table, if and only if all wanted pairs read back |
| `Scheduler.QuietAfterReloadIff` | src/scheduler/jobs.py:244-262 | straight after a reload there is nothing to reconcile if and only if every wanted pair reads back |
| `Scheduler.ReloadRegistersAllIff` | src/scheduler/jobs.py:149-191 | a reload registers every wanted pair if and only if no two of them share an id |
| `Scheduler.ReconcileRegistersAllIff` | src/scheduler/jobs.py:235-262 | from any table a reconcile leaves every wanted pair registered if and only if no two wanted pairs share an id and none is mistaken for registered because another pair's job holds its id |
| `Scheduler.RegisteredByReloadIff` | src/scheduler/jobs.py:149-191 | one wanted pair is registered after a reload in any order if and only if no other wanted pair has its id |
| `Scheduler.RegisteredByReconcileIff` | src/scheduler/jobs.py:235-262 | one wanted pair is registered after a reconcile from any table, in any order, if and only if it is not mistaken for registered and no other missing pair has its id |
| `SchedulerRuns.NoForeignJobs` | src/scheduler/jobs.py:134-175 | over all interleavings no job is registered for a process that is not owned |
| `SchedulerRuns.OwnershipCatchesUp` | src/scheduler/jobs.py:85-92 | once no reload waits and no session loss followed the last accept, the scheduler owns exactly the assigned processes |
| `SchedulerRuns.ReloadUndisturbed` | src/scheduler/jobs.py:134-175 | while a reload holds the lock its jobs are exactly what it has read so far |
| `SchedulerRuns.ReachableReconcileMatchesReloadIff` | src/scheduler/jobs.py:214-262 | in every reachable state, after an aborted reload too, a finished reconcile matches a fresh reload, and keeps a job, exactly under those conditions |
| `SchedulerRuns.ReadableRunsReconcile` | src/scheduler/jobs.py:214-262 | in runs where every pair ever read reads back from its id, each reconcile ends with exactly a fresh reload's jobs, restarts none it keeps and reports exactly the changes |
| `SchedulerRuns.EmptyNameStays` | src/scheduler/jobs.py:193-262 | a run of nine steps at whose end a reconcile wants nothing and the job of the empty process name is still there |
| `Profiles.FoldProfiles` | src/db/models.py:474-516 | the loop over the documents computes the fold |
| `Profiles.FoldIsIncremental` | src/db/models.py:474-516 | folding in two stages is folding at once, in contents, order, governance and verdict |
| `Profiles.FoldIsIdempotent` | src/db/models.py:474-516 | folding a folded profile gives it back |
| `Profiles.FoldIsValid` | src/db/models.py:403-411 | the fold of valid documents passes the profile's own validator |
| `Profiles.RuleDecidedByLastDeclarer` | src/db/models.py:499-516 | a folded rule is its most specific declaration, on only if that document and that declaration are on, and the provenance label names that document |
| `Profiles.MeasureFromLabelledDoc` | src/db/models.py:499-501 | a folded measure is the one of the last document that declares it, and its provenance label names that document |
| `Profiles.ChannelFromLabelledDoc` | src/db/models.py:499-507 | the same for channels |
| `Profiles.Provenance` | src/api/profiles.py:212-222 | the loop labels each measure, rule and channel with the last document that declares it in rank order |
| `Profiles.ActiveRuleHasActiveSource` | src/db/models.py:499-508 | every folded rule is the baked declaration of some document |
| `Profiles.FoldHeader` | src/db/models.py:505-516 | the fold is for its target, on exactly when one of its rules is, and carries the last document's governance |
| `Cascade.CascadeTriples` | src/db/repository.py:296-312 | builds the ancestor scopes of a machine, broadest first, none twice |
| `Cascade.AncestorsAre` | src/db/repository.py:296-312 | the ancestors are exactly the canonical scopes that cover the machine field by field, each broader than the next |
| `Cascade.LoadOfStore` | src/db/models.py:413-440 | a stored profile reads back unchanged but for governance |
| `Cascade.ChainForgetsOrder` | src/db/repository.py:181-197 | with unique scopes the fold chain does not depend on the order Mongo returns documents |
| `Cascade.ChainMembers` | src/db/repository.py:181-197 | the chain has exactly the stored documents whose canonical scope covers the machine |
| `Cascade.ChainNarrows` | src/db/repository.py:67-75 | with unique scopes each document of the chain has a broader scope than all after it |
| `Cascade.NarrowestRuleWins` | src/db/models.py:499-516 | the one rule a machine runs under an id is that of the narrowest document that reaches it and has it, on exactly when document and rule are on, whatever broader documents say |
| `Cascade.NarrowestMeasureWins` | src/db/models.py:499-501 | the same for a measure |
| `Cascade.NarrowestChannelWins` | src/db/models.py:499-507 | the same for a channel |
| `Cascade.CadenceCoversActiveRules` | src/db/repository.py:242-281 | the cadence query collects the interval of every rule the fold leaves on, and that interval's tick picks the rule |
| `Repository.ValidateEffective` | src/db/models.py:519-568 | reports exactly the reference faults there are |
| `AlertMeaning.WellReferencedIff` | src/db/models.py:519-568 | a valid profile has no fault if and only if every rule has its channel, each condition denotes a fact of a measure that allows the operator and a window no shorter than the interval, and all its measures are about one proc |
| `FactCatalog.CatalogueByOperator` | src/analyzer/fact_catalog.py:61-78 | which facts each operator is allowed on |
| `FactCatalog.LaterPhases` | src/analyzer/fact_catalog.py:82-102 | the facts of later phases are exactly the ones not evaluated |
| `Repository.ProfileRepository.CollectScopeDocs` | src/db/repository.py:181-197 | returns exactly the documents that reach the machine, from the broadest scope to the narrowest |
| `Repository.ProfileRepository.GetSchedulingIntervals` | src/db/repository.py:242-281 | returns, ascending and once each, exactly the intervals of rules not off in documents not off for the process or for every process |
| `Repository.ProfileRepository.ReplaceWithVersion` | src/db/repository.py:112-142 | replaces the document exactly when the version matches, telling a conflict from a missing scope |
| `Repository.ProfileRepository.Create` | src/db/repository.py:91-99 | inserts unless the scope has a document |
| `WriteValidation.ValidationSeesWhatRunsIff` | src/api/profiles.py:107-121 | at a scope every write, into any store, has checked what the scope then resolves to (but for governance, with the same reference faults) if and only if the scope is canonical |
| `WriteValidation.OnOwnChainIff` | src/db/repository.py:296-312 | a scope is on its own chain if and only if nothing specific stands below a wildcard |
| `WriteValidation.NonCanonicalNeverFolded` | src/db/repository.py:296-312 | any other scope is on no machine's chain |
| `WriteValidation.Commit` | src/api/profiles.py:159-172 | refuses a faulty composition, else replaces under the version lock; an accepted canonical overlay resolves without reference faults |
| `WriteValidation.CreateOverlay` | src/api/profiles.py:228-244 | the same for a create |
| `Cadence.ServedIff` | src/analyzer/engine.py:118-122 | in any table an active rule is served by a job, whose tick picks it, if and only if the job under its pair's id is that pair's own |
| `Cadence.NoCadenceLostByReloadIff` | src/scheduler/jobs.py:149-169 | a successful reload, in whatever order it registers the pairs, leaves each active rule of each machine of an owned process with a job whose tick picks it if and only if no other wanted pair has that job's id |
| `Cadence.NoCadenceLostByReconcileIff` | src/scheduler/jobs.py:235-262 | a successful reconcile, from any table, does so if and only if the rule's pair is not mistaken for registered and no other missing pair has its id |
| `Cadence.NoIdleJobs` | src/scheduler/jobs.py:149-169 | behind every reloaded job stands an enabled rule of an enabled document in reach |
| `ProfileEdits.Overlay.Edit` | src/api/profiles.py:282-395 | each item handler makes its change or fails with its own status and changes nothing |
| `ProfileEdits.EditDoes` | src/api/profiles.py:282-395 | with unique ids an add appends unless the id is taken, an update replaces its one item or fails, a delete takes out its one item or fails, a channel patch sets that channel; all else stays |
| `ProfileEdits.EditItem` | src/api/profiles.py:282-395 | a request from load to commit changes the document exactly when its edit applies, the composed profile has no fault and the version matches; each refusal has its own answer and changes nothing |
| `ProfileEdits.EditsAreExact` | src/api/profiles.py:282-379 | with unique ids an edit finds its one item or fails, keeps ids unique and leaves the other items alone |
| `ProfileEdits.AddThenDelete` | src/api/profiles.py:282-332 | deleting what was just added restores the list, order included |
| `ProfileEdits.UpdateThenBack` | src/api/profiles.py:295-313 | writing the old item back undoes an update |
| `ProfileEdits.NoLostUpdate` | src/api/profiles.py:129-169 | over all interleavings of requests that name the version they loaded, the stored overlay is the created one with the accepted edits applied in order, and the version counts them |
| `ProfileEdits.AcceptedNamesLoadedOrNewer` | src/db/repository.py:112-142 | an accepted request never names an older version than it loaded, and names that one if and only if its base is the stored overlay |
| `ProfileEdits.ClaimingNewerLosesAnUpdate` | src/api/profiles.py:159-169 | a request naming a newer version than it loaded can wipe out another accepted edit |
| `MetricQuery.BuildFactSubAggs` | src/es/queries.py:56-90 | the loop builds the leaf aggregation of each fact it can compile |
| `MetricQuery.BuildMetricAggregationQuery` | src/es/queries.py:161-221 | the stepwise wrapping builds the compiled query |
| `MetricQuery.ParseMetricAggregation` | src/analyzer/es_parser.py:46-86 | the nested loops read the response as the specification of parsing says |
| `MetricMeaning.LeafMeansFact` | src/analyzer/es_parser.py:20-43 | compiled, evaluated and read back, each implemented fact is what it says about the rows |
| `MetricMeaning.CompiledMeansDirect` | src/es/queries.py:161-221 | for every proc and expansion the parsed answer has exactly the groups the engine returned, with the values of the direct grouping |
| `MetricMeaning.QueryIsGroupingIff` | src/es/queries.py:93-99 | only machines and procs with rows are answered for; all of them are, each fact with its value for every metric instance with rows, if and only if there are at most 30000 machines and, where grouped, 1000 procs a machine and 1000 instances a proc |
| `MetricMeaning.NothingMissingIff` | src/es/queries.py:93-99 | no machine and proc with a row is missing if and only if the first two limits hold |
| `MetricMeaning.EveryMachineAnsweredIff` | src/es/queries.py:97-97 | every machine with rows is answered if and only if there are at most 30000 |
| `MetricMeaning.ExtremesAreRows` | src/es/queries.py:56-90 | max and min are row values with none beyond, last is a newest row's value |
| `MetricMeaning.SpikeCounts` | src/es/queries.py:56-90 | a spike count is the number of rows with a value at or beyond the boundary, on the side the fact names |
| `MetricMeaning.AverageBetween` | src/es/queries.py:56-90 | an average lies between the least and the greatest value |
| `MetricMeaning.AveragesWeigh` | src/es/queries.py:56-90 | the averages of two groups weigh in by their sizes |
| `MetricMeaning.NoRowMissedIff` | src/es/queries.py:114-140 | the named day indexes hold every row asked for if and only if the window touches at most two days |
| `MetricMeaning.DayLongWindowsAreCovered` | src/es/queries.py:114-159 | for windows of up to 24 hours searching the named indexes gives the answer of searching everything |
| `Threshold.ConditionPassesIff` | src/analyzer/threshold.py:75-94 | any, all and count mean what they say over the instances with a value, and no instances never pass |
| `Threshold.PassedIffSatisfied` | src/analyzer/threshold.py:65-100 | a condition passes if and only if, position by position, some instance breaches, every one with a value does and there is one, or at least so many do |
| `Threshold.OperatorsCompare` | src/analyzer/threshold.py:54-62 | each operator compares as its sign says, and an absent value never breaches |
| `Threshold.PassedWitnessesItself` | src/analyzer/threshold.py:65-100 | a passed condition reports an instance's value that breaches: the greatest for >= and >, the least for <= and <, else the first that breaches |
| `Threshold.EvaluateRule` | src/analyzer/threshold.py:103-142 | a breach is returned if and only if all conditions (AND) or some condition (OR) are satisfied by their facts' values, and the loop computes the verdict's report |
| `Threshold.BreachedIff` | src/analyzer/threshold.py:124-127 | that condition for the verdict of any rule and facts |
| `Threshold.BreachWitnessesItself` | src/analyzer/threshold.py:124-142 | a breach names the first passing condition, with a value that really breaches its threshold |
| `Analysis.ComputeMeasure` | src/analyzer/engine.py:199-243 | computes the implemented facts of one measure over the searched indexes, nothing when no fact or metric is left |
| `Analysis.SharedAnswersAreOwnIff` | src/es/queries.py:93-99 | for all rows the answers of a shared query are each machine's own if and only if at most 30000 distinct machines share it (or its window is negative and asks for nothing) |
| `Analysis.AnswersAreOwnIff` | src/es/queries.py:93-99 | over any rows a machine's answers from a shared query are those of a query of its own if and only if it has no rows or the response has its bucket |
| `Analysis.AllHeardIff` | src/es/queries.py:93-99 | no machine with rows is left out of a shared query's response if and only if at most 30000 of the machines sharing it have rows |
| `Analysis.ComputedLocallyIff` | src/analyzer/engine.py:199-243 | each machine of a shared query gets exactly the values of a query of its own if and only if the query does not leave it out |
| `AlertMeaning.ValuesAreFromRows` | src/analyzer/engine.py:178-183 | under `id.type` a rule reads the values of that measure's fact over the target's group of rows when it is computed and the engine answers, and nothing otherwise |
| `AlertMeaning.GroupHolds` | src/es/queries.py:161-221 | that group holds exactly the stored rows of the machine and proc, of the measure's category and metrics, inside the window, on its first or last day |
| `AlertMeaning.CellIsFromRows` | src/analyzer/engine.py:199-243 | the cell a rule is evaluated on is what the rows say, dangling and uncomputed references included |
| `AlertMeaning.PendingIff` | src/analyzer/engine.py:170-197 | an alert is left pending for a rule at a target if and only if the rule's channel exists and its conditions, all or some, are satisfied by the values of the rows |
| `AlertMeaning.AnyInstanceAlerts` | src/analyzer/engine.py:178-197 | for one `any` condition: if and only if some metric instance's value breaches |
| `AlertMeaning.PendingReports` | src/analyzer/engine.py:184-197 | it reports the first satisfied condition, with a value of the rows that breaches, the rule's severity and channel, and the measure's category and window |
| `Buckets.TriggerMeasureExists` | src/analyzer/engine.py:161-197 | the lookup of the triggering measure never misses, even in a profile with dangling references |
| `Buckets.EvaluateBucket` | src/analyzer/engine.py:148-197 | leaves pending exactly what the rules fire for some machine and proc with a channel, each once |
| `Ticks.SameSignatureAlike` | src/db/models.py:451-471 | profiles with equal signatures have the same rules, measures by id and channels by name |
| `Ticks.BucketIsUnion` | src/analyzer/engine.py:148-197 | what a bucket leaves pending for a machine that none of its queries leaves out is what that machine leaves pending alone |
| `Ticks.Bucketize` | src/analyzer/engine.py:87-105 | every machine whose profile runs is in the bucket of its signature, in order, and no other machine is |
| `Ticks.DoAnalysis` | src/analyzer/engine.py:87-127 | for distinct machines an alert of a due rule is pending for a machine and proc if and only if its channel exists and its conditions are satisfied by the rows its shared queries answer; each reports such a rule, nothing twice; for every machine that no query leaves out, exactly what evaluating it alone would |
| `Ticks.TickAlertsIff` | src/analyzer/engine.py:118-197 | the same for one bucket |
| `Ticks.SmallBucketsHeard` | src/analyzer/engine.py:87-127 | with no more than 30000 distinct machines to a signature no query of the tick leaves a machine out |
| `Ticks.StoreGivesValid` | src/db/repository.py:199-240 | valid stored documents give every machine a valid profile |
| `Ticks.MachineSees` | src/analyzer/engine.py:91-97 | a machine has a profile exactly when some stored document reaches it |
| `Ticks.ModellessMachine` | src/analyzer/engine.py:91-97 | a machine without a model sees the documents for all processes and for its own process, and no others |
| `Cooldown.AlertCooldownManager.IsCoolingDown` | src/cache/cooldown.py:65-82 | asks Redis when reachable, else the local cache |
| `Cooldown.AlertCooldownManager.SetCooldown` | src/cache/cooldown.py:84-112 | writes the local entry whatever Redis does, and the Redis entry with the channel's own lifetime |
| `Cooldown.AlertCooldownManager.IsCoolingDownBatch` | src/cache/cooldown.py:129-146 | answers every key as a single check would |
| `Cooldown.KeyIsOwnIff` | src/cache/cooldown.py:151-157 | an identity shares its key with no other if and only if none of its parts has a colon |
| `Cooldown.KeysDiffer` | src/cache/cooldown.py:151-157 | identities without colons never share a key |
| `Cooldown.CheckAnswers` | src/cache/cooldown.py:65-112 | after any sets on any instances, a check on any instance answers from the latest set Redis kept when it reaches Redis, and else from its own latest set of the last hour |
| `Cooldown.NotCoolingInWindowIff` | src/cache/cooldown.py:65-112 | inside the latest set's window (1 to 60 minutes) a check on any instance answers "not cooling" if and only if it reached Redis, which that set had missed and which has no earlier entry, or it did not reach Redis and its own instance made no set of the key in the last hour |
| `Cooldown.SuppressedUnlessRedisMissedTheSet` | src/cache/cooldown.py:65-112 | on the instance that made the latest set, that is if and only if the set missed Redis, the check reached it and no earlier entry lives there |
| `Cooldown.OtherInstanceForgets` | src/cache/cooldown.py:75-82 | the input that fails elsewhere: a set that reached Redis does not suppress an outage check on another instance |
| `Cooldown.OutageAnswersForAnHour` | src/cache/cooldown.py:50-53 | in an outage an instance suppresses for an hour from its own latest set, whatever its cooldown |
| `Cooldown.LongCooldownOutlivesLocal` | src/cache/cooldown.py:50-53 | on the instance of the latest set an outage check suppresses for exactly an hour, however long the cooldown |
| `Cooldown.NobodyRemembersAfterAnHour` | src/cache/cooldown.py:50-53 | an hour after the latest set an outage check on any instance answers "not cooling" |
| `Dispatch.GroupIs` | src/analyzer/engine.py:263-275 | a group holds exactly the pending alerts with its key, in order |
| `Dispatch.GroupAddresses` | src/analyzer/alert_builder.py:46-81 | those are exactly the pending alerts of its process, proc, channel name and severity, and of its machine, model or process as their channels group |
| `Dispatch.ShareGroupIff` | src/analyzer/engine.py:263-275 | two pending alerts whose channels group alike share a mail if and only if proc, channel name and severity agree and so does the machine, the model or the process |
| `Dispatch.GroupsInOrder` | src/analyzer/engine.py:263-275 | groups come in the order of their first pending alerts |
| `Dispatch.MailRepresents` | src/analyzer/engine.py:287-308 | a mail speaks for the smallest machine id by its first alert; a group send lists every machine once, ascending, under the model or process as headline |
| `Dispatch.DispatchPending` | src/analyzer/engine.py:245-332 | one tick mails each key at most once, and exactly the groups that are not cooling, not refused and not behind a group that cuts the tick; it is cut exactly by a mailed group whose cooldown is not positive and whose set reaches Redis; each mail goes to all the alerts its key is for, and the instance then remembers each mailed key for an hour |
| `Dispatch.NothingMissed` | src/analyzer/engine.py:276-332 | with positive cooldowns on all channels every group neither cooling nor refused is mailed |
| `Dispatch.ZeroCooldownCutsTick` | src/analyzer/engine.py:326-332 | the input that fails: after the mail of a channel with 0 minutes the next group goes unsent |
| `RateLimit.MailsAreSpaced` | src/analyzer/engine.py:276-332 | over all runs of ticks serialised per process, two mails for one key are at least a full cooldown after the earlier one's set apart |
| `TickSteps.DispatchIsTick` | src/analyzer/engine.py:245-332 | a dispatch with Redis reachable is one tick of those runs: its steps lead to the program's own Redis with exactly the program's mails logged, each with the instant it was sent at and the instant its cooldown was set at |
| `AnalysisLock.BodiesExclude` | src/distributed/lock.py:75-115 | two bodies for one process never overlap on an instance, and across instances only after the session of one expired while it was inside |
| `AnalysisLock.LocalLockNotLeaked` | src/distributed/lock.py:75-115 | a coroutine lock is free when nobody is past it, after a timeout too |
| `AnalysisLock.LostSessionLetsIn` | src/distributed/lock.py:97-115 | once the session of a body inside expires, a waiting call of another instance can enter |
| `AnalysisLock.BothInside` | src/distributed/lock.py:75-115 | a run of seven steps from the empty state that ends with two bodies for one process inside |
| `BodyCap.CutAndDecode` | src/alert/body_renderer.py:188-193 | encoding, cutting anywhere and decoding with errors ignored gives the longest prefix of whole characters that fits |
| `BodyCap.DecodeUndoesEncode` | src/alert/body_renderer.py:192-192 | decoding undoes encoding |
| `BodyCap.TruncationKeepsLongestPrefix` | src/alert/body_renderer.py:188-193 | the kept text is the longest whole-character prefix leaving room for the marker; the result respects the cap if and only if it is at least 18 |
| `BodyCap.CapHoldsIff` | src/alert/body_renderer.py:244-249 | the capped body respects the cap if and only if it did already or the cap is at least 18; a fitting body is unchanged |

## Left out

- Facts of later phases (duration, delta, trend and the rest): the schema accepts them and the engine skips them; the model skips them too.
- The resolve cache of the repository: every resolve folds afresh, so staleness between writes is not modelled.
- The unconditional upsert and the delete of an overlay: the no-lost-update result is about creates and version-locked replaces.
- Linting of effective profiles, token substitution, row expansion and titles of mails, template lookup and the rest of the mail payload.
- Orphan assignment cleanup, the membership debounce, and re-registration after a lost session.
- The cache of metric names: the names listed are a function of the days, category and proc asked about.
- Debug mode, scheduler shutdown and the periodic reconcile loop.
- Measure fields that play no part in Phase 1 evaluation (`group_by`, `metric_kind`, `bucketing`, `baseline`) and governance time stamps and change reasons.
- Eviction from the bounded local cooldown cache, and loss of Redis data.
- RateLimit.MailsAreSpaced: Redis is reachable throughout, cooldowns are positive, and no instance crashes between a send and its set; the tick lock is taken to exclude, as AnalysisLock proves while sessions live.
- Ticks.DoAnalysis: the search engine's answers are a function of the matching rows, so the rows do not change between the queries of one tick; for a machine that some query leaves out, what is pending is stated only in terms of the shared answers.
- Ownership.SameKeyMeansDisjoint: the epoch bump runs under election exclusion and one leader never uses a time stamp twice.
- Buckets.EvaluateBucket: the order in which targets are visited is left open, so only which alerts are pending is stated.
- Floating point rounding and NaN: values are exact reals.
