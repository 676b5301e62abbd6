# Verified models of the hub's offline machinery

The service keeps its state in one SQLite database and changes it offline with migration, repair and
retirement scripts; a few parsers and checkers stand beside them. This project models the scripts whose
correctness does not show in any one function, and proves what each promises over every content of the
database, every order, every run or every sequence of runs.

Beside each script stands a module that says the same column by column or row by row (`CostColumns`,
`RetirementRows`, `RetirementGuards`, `NotificationColumns`, `RouteRepairRows`, `CodeShapeRows`,
`CodeRatchetRows`, `EnvFileRows`, `EncodedRows`, `UrlRows`): its predicates name columns, literals and
characters rather than the functions that compute the result, and its theorems tie the two together.

Tables are maps from primary key to row, held in the fields of a class whose methods issue the updates in
the order the script issues them. A rolled-back transaction puts every field back. Each method is proved
against a specification function of the old tables, and the theorems are about that function.

* **Cost ledger repair, v17** (`CostLedger`, `CostRepair`, `CostOrder`, `CostPairs`, `CostListings`,
  `CostRepeats`, `CostColumns`). One loop walks the validations and rewrites five tables that later rounds
  read. `CostOrder.Reference` is an independent account of the result, read off the original tables row by
  row; under the hypothesis `Stable` the loop computes it in every order. `Stable` says that stamping a
  freed run leaves it the latest of its attempt, which holds whenever no run is stamped after `now`. Order
  can matter otherwise: `CostPairs.SwapMattersIffClash` gives the exact condition for two neighbours,
  `LateStampBreaksOrder` a ledger that meets it, and `CostListings.AnyOrderIff` the exact condition for a
  whole ledger. Running the repair again can change costs on a ledger with late stamps even where no order
  matters; `CostRepeats.SecondRepairRepeatsIff` says exactly when the validations come out the same.
  `CostColumns.RoundColumns` gives every column after a round in any ledger, `RepairColumns` after a whole
  repair under stable stamps.
* **ActorOps v1 retirement** (`Retirement`, `RetirementFacts`, `RetirementProtocol`, `RetirementRows`,
  `RetirementGuards`). The transaction, and the snapshot, apply and verify commands as a state machine with
  other writers and crashes between all steps. A writer between the receipt check and `BEGIN IMMEDIATE`
  makes an apply commit from a content the receipt never recorded; `StartsFromTheRecordIff` says exactly
  when, and what such a commit leaves is clean all the same. Writers anywhere else do no harm to it. The
  count of open costs ends early where there is a table of runs but none of attempts, or no column joining
  them; `UnjoinableHidesCosts` gives a database that retires with an open cost, and `TransactionIff` the
  exact rows that stop a retirement.
* **Notification migrations, v15 and v16** (`Notifications`, `NotificationMigration`,
  `NotificationTheorems`, `NotificationColumns`). User and alert tables have the same shape and are one
  table with an owner that is a user or a workspace. v16 aborts when deliveries that need one placeholder
  were created at different times, because the rows selected for placeholders are distinct in the creation
  time too while the id is not. Its rewrite is not one transaction: the index scripts it executes commit
  what has been done before them, so that a check that fails afterwards takes back the marker and not the
  tables. `UnchangedIff` says exactly when a failed rewrite leaves the database alone, `FailedChecksStay`
  gives a database of one delivery where it does not, and `SecondRewriteIff` says exactly when a rewrite
  repeated after an interruption between its commits ends with the same tables. The run around it restores
  its backup, and so is all or nothing when the restore completes and nobody else writes; what others wrote
  after the backup goes with the restore.
* **Installers** (`Installers`). Backup, apply, check and restore with a failure possible at each step. The
  installer of version 26 restores after every failure and so undoes what others wrote after the backup;
  those of versions 33 to 36 restore only once they have begun to apply. The shape check of version 36 asks
  about rows as well, which other writers may change and installing does not mend.
* **Code size checker and ratchet** (`CodeShape`, `CodeShapeRows`, `CodeRatchet`, `CodeRatchetRows`). The
  mutable visitors refine functions on the tree, and passing chains of commits keep the ratchet. It has two
  limits, both stated exactly: a frozen file can grow if and only if some commit on the way lacks it
  (`NeverGrowsIffNoGap`), and a new callable over the limit gets into a frozen file in two commits but never
  in one (`OversizedNeedsTwoCommits`).
* **Static string sets** (`StaticStrings`). The evaluator of the worker contract check against the value the
  program computes. It differs where a string is iterated over, as in `frozenset("abc")`, unless that string
  and its characters are elements anyway; `FoundIsTheValueIff` says so for every expression.
* **Environment file** (`EnvFile`, `EnvFileTheorems`, `EnvFileStability`, `EnvFileRows`). Parser and updater
  on characters, with the line breaks and the white space of the language's own string methods.
* **YouTube route repair, v15** (`RouteRepair`, `RouteRepairFacts`, `RouteRepairRows`). All or nothing over
  all workspaces, with an exact account of every table, and the first obstacle named when it stops.
* **Encoded texts** (`Encodings`, `Passwords`, `EncodedRows`, `FeedRoutes`, `BaseUrls`, `UrlRows`). Decimal
  numbers, unpadded base64url (section 5 of RFC 4648), stored password hashes, managed feed paths and RSSHub
  base URLs, printed and read back. The pattern for feed paths lets through numbers of nineteen digits that
  the UID limit refuses. Normalizing a base URL is not idempotent: `http://a /` becomes `http://a ` and then
  `http://a`, and `http://[v1.[x]` becomes `http://v1.[x`, which is refused. `BaseUrls.NormalizeTwice` says
  exactly when a second pass changes the result.

`Common` holds shared vocabulary. `Enumerates(order, keys)` stands for a query result in some order; where
the script sorts, the contract holds for every listing, hence for the sorted one.

Conventions: identifiers are integers ordered like the texts they stand for; timestamps are integers; money
is `real`, only copied and compared with zero; content digests are constructors and so injective; a missing
table is an empty one and a missing column is `None`, but for the join that the retirement's counts need;
the verdict of an integrity check is an input. An exception is an error value.

## Model

| member | source | states |
|---|---|---|
| CostLedger.LatestRun | scripts/migrate_apify_actor_canary_batches_v17.py:58-71 | a run is found exactly when the attempt has one, and it is the last in the order of update time and id |
| CostLedger.Ledger.RepairValidationCosts | scripts/migrate_apify_actor_canary_batches_v17.py:74-272 | for any listing of the validations, the five tables and the counters end as the repair function of the old tables says |
| CostLedger.Ledger.RepairOne | scripts/migrate_apify_actor_canary_batches_v17.py:104-271 | one round: reads the current tables, takes the branch its attempt and latest run call for, and touches no other row |
| CostLedger.Ledger.RecordNoStart | scripts/migrate_apify_actor_canary_batches_v17.py:152-222 | the no-start branch frees run and attempt, settles the validation at zero and stops its revision and candidate once |
| CostRepair.StepPreserves | scripts/migrate_apify_actor_canary_batches_v17.py:104-271 | whatever branch a round takes, only a run rejected at its start without remote run, dataset, reserve and charge is rewritten, no running attempt and no approved cap is, and revisions and candidates change in the two ways of a stop only |
| CostRepair.EveryCostIsBacked | scripts/migrate_apify_actor_canary_batches_v17.py:82-272 | after the repair a cost is final exactly when it is known, and then it is zero or an amount the original ledger marks final |
| CostOrder.ClockAheadIsStable | scripts/migrate_apify_actor_canary_batches_v17.py:58-71 | if no run is stamped after now, stamping a freed run never makes another run of the attempt the latest |
| CostOrder.StepReference | scripts/migrate_apify_actor_canary_batches_v17.py:104-271 | a round extends the row-by-row account of the processed validations by exactly its own validation |
| CostOrder.RepairIsReference | scripts/migrate_apify_actor_canary_batches_v17.py:74-272 | tables and counters of the loop are those read off the original tables without any loop |
| CostOrder.OrderIndependent | scripts/migrate_apify_actor_canary_batches_v17.py:96-104 | any two processing orders, shared attempts and revisions included, give the same tables and counters |
| CostOrder.Idempotent | scripts/migrate_apify_actor_canary_batches_v17.py:74-272 | a later second repair changes update stamps at most, stops no revision and repeats the other counters |
| CostOrder.CountersPartition | scripts/migrate_apify_actor_canary_batches_v17.py:82-87 | the first three counters are sizes of disjoint classes that with the uncounted validations make up the table; the fourth counts each stopped revision once |
| CostPairs.SwapMattersIffClash | scripts/migrate_apify_actor_canary_batches_v17.py:104-271 | swapping two neighbouring validations changes the outcome if and only if they share an unstarted attempt whose stamped run hands the lead to a run that shows a start |
| CostPairs.LateStampBreaksOrder | scripts/migrate_apify_actor_canary_batches_v17.py:58-71 | a ledger with runs stamped after now whose two processing orders end differently |
| CostListings.FoldStamps | scripts/migrate_apify_actor_canary_batches_v17.py:143-161 | after any rounds the runs of an attempt are the original ones with the run in the lead stamped once for each of its rounds, whatever the other rounds did |
| CostListings.ClashAfter | scripts/migrate_apify_actor_canary_batches_v17.py:143-161 | two validations clash after any rounds exactly when they share an attempt that loses its proof with the next stamp |
| CostListings.ListingsAgree | scripts/migrate_apify_actor_canary_batches_v17.py:104-271 | under the condition on stamps any two listings of the same validations end with the same tables and counters |
| CostListings.LossShows | scripts/migrate_apify_actor_canary_batches_v17.py:104-271 | without that condition some two listings of the whole ledger end with different rows |
| CostListings.AnyOrderIff | scripts/migrate_apify_actor_canary_batches_v17.py:96-272 | the repair of a ledger is the same in every order if and only if, for each attempt shared by m validations and proven unstarted, stamping the run in the lead fewer than m times leaves a run in the lead that proves it |
| CostListings.StableIsLasting | scripts/migrate_apify_actor_canary_batches_v17.py:58-71 | if every freed run stays the latest of its attempt, that condition holds |
| CostRepeats.SecondRepairRepeatsIff | scripts/migrate_apify_actor_canary_batches_v17.py:74-272 | whatever the orders and the times of two repairs, the second leaves every validation as the first did if and only if, for each attempt shared by m > 0 validations and proven unstarted, m stamps of the first and m - 1 of the second leave a run in the lead that proves it |
| CostRepeats.RepeatsIsLasting | scripts/migrate_apify_actor_canary_batches_v17.py:96-272 | the condition for repeating implies the condition under which no order matters |
| CostRepeats.StableRepeats | scripts/migrate_apify_actor_canary_batches_v17.py:58-71 | if every freed run stays the latest of its attempt, a later second repair repeats the first |
| CostRepeats.LateRowChanges | scripts/migrate_apify_actor_canary_batches_v17.py:58-71 | a ledger of one validation, whose order cannot matter, on which a second repair at the same time differs from the first |
| CostColumns.LastIsLatest | scripts/migrate_apify_actor_canary_batches_v17.py:58-71 | the run found is the one stamped last and, among those stamped together, the one with the highest id |
| CostColumns.RoundColumns | scripts/migrate_apify_actor_canary_batches_v17.py:104-271 | in any ledger one round leaves every column of the five tables as the old rows say: which validation, run, attempt, revision and candidate change, from which columns, to which values |
| CostColumns.RoundCounts | scripts/migrate_apify_actor_canary_batches_v17.py:104-271 | in any ledger the counters of one round, read off the old rows |
| CostColumns.RepairColumns | scripts/migrate_apify_actor_canary_batches_v17.py:74-272 | under stable stamps the whole repair does so for all validations: a validation ends at zero, at the final amount of its last run, at that of its attempt, or open, and counts accordingly |
| CostColumns.RepairCounts | scripts/migrate_apify_actor_canary_batches_v17.py:82-272 | under stable stamps the four counters are numbers of rows of the original tables |
| Retirement.RequireApplySafe | scripts/retire_actorops_v1.py:409-425 | refuses exactly when a worker is active, a start unknown, a cost unsettled, a fact nonterminal, or a count not confirmed |
| Retirement.Store.Transaction | scripts/retire_actorops_v1.py:506-529 | commits the retirement of the content read inside the transaction, or refuses or fails its checks and leaves every table as it was; which it does is TransactionIff |
| RetirementFacts.JobsChanged | scripts/retire_actorops_v1.py:428-439 | exactly the queued, never attempted, never started v1 jobs change, and they end cancelled |
| RetirementFacts.JobsAfter | scripts/retire_actorops_v1.py:118-133 | after the cancellation no job is safe to cancel and the isolated jobs are the same |
| RetirementFacts.StandingAfter | scripts/retire_actorops_v1.py:442-465 | after the updates no standing authorization and no shadow route is left |
| RetirementFacts.NoLegacySourceIsLeft | scripts/retire_actorops_v1.py:218-253 | after a retirement the query for enabled legacy sources finds none |
| RetirementFacts.RetirementLeaves | scripts/retire_actorops_v1.py:256-282 | after a retirement standing work of every kind counts zero, isolated jobs and all counts of facts and workers are unmoved |
| RetirementFacts.WorkersStayStale | scripts/retire_actorops_v1.py:102-115 | no active worker now means none at any later time, unparsable heartbeats included |
| RetirementFacts.RetirementIsConservative | scripts/retire_actorops_v1.py:428-483 | the changed jobs, routes and sources are exactly the safe jobs, shadow routes and legacy sources, generations rise by one, and no fact row changes |
| RetirementFacts.BindingsAreConservative | scripts/retire_actorops_v1.py:468-483 | exactly the not yet disabled bindings of legacy sources rise by one version |
| RetirementFacts.ReportCountsChanges | scripts/retire_actorops_v1.py:509-518 | every number of a committed report is the number of rows changed |
| RetirementFacts.RetireTwice | scripts/retire_actorops_v1.py:428-483 | retiring a retired database changes nothing, whatever the second stamp |
| RetirementRows.SummaryRows | scripts/retire_actorops_v1.py:102-282 | each count that stops a retirement is positive exactly when one of the rows named by the queries exists, and the jobs and sources counted are those rows |
| RetirementRows.RetireRows | scripts/retire_actorops_v1.py:428-483 | every column of every table after a retirement, read off the old rows |
| RetirementRows.TransactionIff | scripts/retire_actorops_v1.py:506-529 | the transaction names the first kind of obstacle that has a row, and commits if and only if no row stands in the way, the checks pass and the numbers given are right |
| RetirementRows.EveryCommitRows | scripts/retire_actorops_v1.py:506-529 | over all interleavings with writers and crashes, a committed apply neither starts from nor leaves an open cost, an unknown start or a pending state in any row, changes exactly the standing rows, and nothing stands afterwards |
| RetirementRows.VerifyIff | scripts/retire_actorops_v1.py:537-562 | verification succeeds if and only if content, shape and soundness are right, no row blocks, the tried jobs are as many as confirmed and nothing stands |
| RetirementRows.UnjoinableHidesCosts | scripts/retire_actorops_v1.py:166-196 | a database with runs that cannot be joined retires although a validation has an open cost, and is refused otherwise |
| RetirementGuards.CommitsAreGuarded | scripts/retire_actorops_v1.py:370-380 | every apply that commits was started with services stopped, a window of at most a minute and no active worker before and after it |
| RetirementGuards.CommitsArePreviewed | scripts/retire_actorops_v1.py:499-505 | every apply that commits had found, before its backup, no blocking row and the numbers given right |
| RetirementGuards.ReceiptsAreGuarded | scripts/retire_actorops_v1.py:383-406 | every receipt comes from a snapshot started behind the same guard, on a content of the recorded shape |
| RetirementGuards.CrashEndsTheCommand | scripts/retire_actorops_v1.py:506-534 | after a crash nothing is committed, no receipt is written and only others change the database until a command starts |
| RetirementProtocol.EveryCommitIsClean | scripts/retire_actorops_v1.py:506-529 | over all interleavings with writers and crashes, every committed apply leaves no standing work, unknown start, unsettled cost or nonterminal fact |
| RetirementProtocol.AppliedReceiptIsFinal | scripts/retire_actorops_v1.py:492-534 | once the digest after apply is on the receipt, no later step commits an apply or touches the receipt |
| RetirementProtocol.CommitsStartFromTheRecord | scripts/retire_actorops_v1.py:492-523 | with writers anywhere but between a receipt check and its transaction, and crashes anywhere, every committed apply starts from exactly the content its receipt recorded |
| RetirementProtocol.WindowOpened | scripts/retire_actorops_v1.py:492-504 | whatever is between check and transaction got there by a receipt check of the recorded content, and its content is what the last writer since left |
| RetirementProtocol.StartsFromTheRecordIff | scripts/retire_actorops_v1.py:492-523 | an apply that commits starts from its recorded content if and only if the last write of others since its receipt check, should there be one, restored exactly that content |
| RetirementProtocol.ApplyThenVerify | scripts/retire_actorops_v1.py:537-562 | after an undisturbed apply, verify succeeds at every later time and reports the confirmed number of isolated jobs |
| RetirementProtocol.CrashCannotRetireTwice | scripts/retire_actorops_v1.py:492-534 | a commit that changed the content is not repeated even when a crash kept its digest off the receipt |
| RetirementProtocol.DisturbedApplyStartsElsewhere | scripts/retire_actorops_v1.py:492-523 | a writer between the receipt check and the transaction makes an apply commit from unrecorded content |
| NotificationMigration.NotificationDb.RebuildWithGenerations | scripts/migrate_notification_channels_v15.py:722-890 | inserting one row for each row of the join gives every delivery its channel generation, or is refused exactly when two deliveries share subject and channel |
| NotificationMigration.NotificationDb.ApplyV15 | scripts/migrate_notification_channels_v15.py:893-920 | commits exactly when its checks pass, signing columns come in pairs and no two deliveries share subject and channel; otherwise every table is as before |
| NotificationMigration.NotificationDb.MigrateCurrentTargets | scripts/migrate_notification_targets_v16.py:243-441 | every selected channel row gets its target and binding, or the run is refused because a row breaks a check or repeats an id |
| NotificationMigration.NotificationDb.CreateHistoricalPlaceholders | scripts/migrate_notification_targets_v16.py:444-547 | a placeholder for every key of delivery history without a legacy target, refused exactly when two rows claim one id |
| NotificationMigration.NotificationDb.MapDeliveryTargets | scripts/migrate_notification_targets_v16.py:550-624 | every delivery is mapped to some candidate target of its key |
| NotificationMigration.NotificationDb.MapAndRebuild | scripts/migrate_notification_targets_v16.py:888-903 | over filled targets and with no other writer, mapping and both rebuilds give each delivery its one matching target and refuse nothing, across the commits in between |
| NotificationMigration.NotificationDb.ApplyV16 | scripts/migrate_notification_targets_v16.py:877-910 | a refused insert changes nothing, whatever other writers do; otherwise, with no other writer, the tables are rewritten and committed whatever the checks say, and only the marker depends on them |
| NotificationMigration.NotificationDb.MigrateV16 | scripts/migrate_notification_targets_v16.py:913-997 | with no other writer a run ends with the old database or fully migrated, given that a restore completes; a failed run ends on its backup whoever wrote since; without apply nothing changes, and what is done is decided by marker, schema, v15 and workers |
| NotificationMigration.SameOrphans | scripts/migrate_notification_targets_v16.py:444-500 | the delivery rows without a legacy target are those that no selected channel row covers |
| NotificationMigration.UniqueMatch | scripts/migrate_notification_targets_v16.py:550-624 | each delivery has exactly one matching target, so the ordered query with limit one has no choice |
| NotificationMigration.EveryDeliveryIsMapped | scripts/migrate_notification_targets_v16.py:550-624 | every delivery gets a target that agrees with it on workspace, owner and channel, so the guard against unmapped rows cannot fire |
| NotificationMigration.TargetsKeepUniqueness | scripts/migrate_notification_targets_v16.py:627-828 | uniqueness per subject and channel becomes uniqueness per subject and target |
| NotificationTheorems.IdsAreInjective | scripts/migrate_notification_targets_v16.py:148-157 | equal target ids mean equal kind, workspace, owner and channel |
| NotificationTheorems.CommitsIff | scripts/migrate_notification_targets_v16.py:877-910 | the rewrite completes if and only if its checks pass, secrets come in pairs, and all deliveries that need one placeholder were created at one time; the last two alone decide whether the tables are rewritten |
| NotificationTheorems.RewriteIsDetermined | scripts/migrate_notification_targets_v16.py:877-910 | the old tables determine the rewritten ones, whatever the order of rows and the choices of limited queries |
| NotificationTheorems.UnchangedIff | scripts/migrate_notification_targets_v16.py:715-734 | a failed rewrite leaves the database as it was if and only if an insert was refused, or the tables hold the targets and bindings already and every delivery points at its match with its generations |
| NotificationTheorems.AlreadyStays | scripts/migrate_notification_targets_v16.py:243-624 | a rewrite leaves the tables as they were exactly when they hold its targets and bindings and every delivery points at its match with its generations |
| NotificationTheorems.CommitsLeaveInterrupted | scripts/migrate_notification_targets_v16.py:715-828 | what either commit leaves is the rewritten tables, with some deliveries mapped and not yet given their channel generation |
| NotificationTheorems.SecondRewriteIff | scripts/migrate_notification_targets_v16.py:877-910 | after an interruption between the commits a second rewrite is not refused, and ends with the same tables if and only if no alert copied already had come without a channel generation |
| NotificationTheorems.FailedChecksStay | scripts/migrate_notification_targets_v16.py:904-909 | one delivery and a failed check: the rewritten delivery stays, the marker does not |
| NotificationMigration.JoinKeepsRowCount | scripts/migrate_notification_channels_v15.py:722-890 | the left join with the channel tables has one row per delivery, so the row-count guards cannot fire |
| NotificationTheorems.V15EnablesTheOldChannel | scripts/migrate_notification_channels_v15.py:394-571 | of the three channel rows of a settings row only the one on the old channel is enabled, at the lowest of distinct positions |
| NotificationTheorems.V15ThenV16 | scripts/migrate_notification_targets_v16.py:877-910 | v15 followed by a committed v16 leaves each settings row exactly one enabled binding, on its old channel, at the lowest of distinct positions |
| NotificationColumns.V15Columns | scripts/migrate_notification_channels_v15.py:394-571 | every column of the three channel rows of each settings row, and the generation each delivery gets |
| NotificationColumns.V16Columns | scripts/migrate_notification_targets_v16.py:243-624 | a migrated database holds exactly one target and binding for each channel row worth one and a placeholder for each uncovered delivery, with every column and id as the old rows say, and each delivery points at its own |
| NotificationColumns.CompletesIff | scripts/migrate_notification_targets_v16.py:877-910 | the rewrite completes if and only if its checks pass, destination and signing columns come in pairs, and uncovered deliveries of one kind were created at one time |
| NotificationColumns.OldChannelSurvives | scripts/migrate_notification_targets_v16.py:243-441 | after v15 and v16 the target of a settings row's enabled binding carries that row's webhook destination, signing pair, provider, generation and tests |
| Installers.ReadyRows | scripts/migrate_actorops_v2_stability.py:36-54 | a version is ready exactly when it and all versions below it, down to 32, have their marker and a complete shape |
| Installers.StateRows | scripts/migrate_actorops_v2_stability.py:36-54 | the state of a chained version, with each refusal, read off markers and shapes |
| Installers.State26Rows | scripts/migrate_actorops_v2.py:126-142 | the state of version 26 likewise |
| Installers.Host.Migrate | scripts/migrate_actorops_v2_stability.py:77-127 | state, apply and workers on entry decide between preview, refusal and run; without apply nothing changes; an applied run saw no worker at either heartbeat check; with no other writer a run ends with the old database or with marker, valid schema and passed integrity check; v1 facts are kept as far as the schema module keeps them, which is an assumption; a finished version is a no-op without backup; a run stopped by the second heartbeat check keeps what others wrote |
| Installers.Host.AfterBackup | scripts/migrate_actorops_v2_stability.py:94-127 | once a backup exists, the outcome is applied and ready, or failed on the old database, unless the restore itself fails |
| Installers.Host.ApplyMigration | scripts/migrate_actorops_v2_stability.py:100-101 | changes the database only by installing a version whose prerequisite is ready |
| Installers.Host.Restore | scripts/migrate_apify_actor_ops_v15.py:380-435 | a completed restore leaves the backup; a failed one leaves the backup or the database as it was |
| Installers.Host.Migrate26 | scripts/migrate_actorops_v2.py:208-281 | state, apply, workers and open work on entry decide between preview, refusal and run; without apply nothing changes; every failure after the backup ends on the backup, also when that undoes what another writer committed since |
| Installers.Host.Backfill26 | scripts/migrate_actorops_v2.py:236-262 | success means marker, shape and soundness, no worker at its start and no open work when its transaction began, and with no other writer unchanged v1 facts |
| Installers.InstalledIsReady | src/storage/actorops_v2_verified_replacement_schema.py:30-36 | installing a required version makes it ready, except that for version 36 the policy rows must be valid too |
| Installers.InstallKeepsClosed | scripts/migrate_actorops_v2_stability.py:36-54 | installing a version whose state was required keeps the installed versions closed under prerequisites |
| Installers.ChainStaysClosed | scripts/migrate_actorops_v2_verified_replacement.py:35-77 | over any sequence of runs of the chained installers the installed versions stay closed, none disappears, and rerunning an installed version changes nothing |
| CodeShape.PythonShape.Visit | scripts/check_code_size.py:102-158 | adds the decision weight of the visited part to the complexity, raises the maximum nesting to depth plus its nesting, and restores the depth |
| CodeShape.PythonCallables.Visit | scripts/check_code_size.py:161-196 | appends the metrics of the visited part in pre-order and restores the stack of enclosing names |
| CodeShape.NestingBelowWeight | scripts/check_code_size.py:109-158 | control nesting never exceeds decision weight, so nesting stays below complexity |
| CodeShape.OneMetricPerFunction | scripts/check_code_size.py:161-196 | one metric per function definition, in pre-order, each measuring that function |
| CodeShape.DecisionsAreConserved | scripts/check_code_size.py:102-196 | below any node the complexities less one add up to the weight of the nodes owned by a function |
| CodeShape.ModuleDecisions | scripts/check_code_size.py:199-210 | over a whole module no decision is lost and none is counted twice |
| CodeShapeRows.WeightIsArms | scripts/check_code_size.py:102-158 | the weight of a tree is the number of arms of the nodes that no nested function or class encloses |
| CodeShapeRows.NestingIsDeepestPath | scripts/check_code_size.py:102-158 | the nesting of a body is the largest number of control nodes on one way down |
| CodeShapeRows.MetricsAreDefined | scripts/check_code_size.py:161-196 | the collected metrics are those of the definitions in pre-order, with lines from the first decorator on, own arms, deepest path and the dotted names around them |
| CodeRatchet.CompareLimits | scripts/code_size_policy.py:213-218 | reports nothing exactly when no category's target, soft or hard limit has risen |
| CodeRatchet.ComparePolicy | scripts/code_size_policy.py:207-231 | reports nothing exactly when baseline and exclusions are unchanged, no limit has risen and no file is newly frozen |
| CodeRatchet.Evaluate | scripts/check_code_size.py:309-366 | passes exactly when every measured file and callable outside frozen files is within its hard limit |
| CodeRatchet.CompareFrozenMetrics | scripts/check_code_size.py:369-420 | reports nothing exactly when no frozen file has grown and none has an oversized callable the base lacks |
| CodeRatchetRows.SourceIs | scripts/check_code_size.py:282-290 | a file is measured for the suffix of its last path component, in either case, and never for a name that is only a suffix |
| CodeRatchetRows.CategoryIs | scripts/check_code_size.py:84-95 | the category of a path: tests by directory or name, else migrations, else production |
| CodeRatchetRows.WithinLimitsIff | scripts/check_code_size.py:309-366 | the evaluation passes if and only if each source file neither excluded nor frozen, and each callable outside frozen files, is within the hard limit of its category |
| CodeRatchetRows.TightensIff | scripts/code_size_policy.py:207-231 | a policy passes against the one before if and only if none of its limits is larger and baseline, exclusions and frozen files are kept |
| CodeRatchetRows.FrozenHoldsIff | scripts/check_code_size.py:377-420 | the comparison with the base passes if and only if no frozen file has grown and every oversized callable in one was there under its path, symbol and category |
| CodeRatchet.LimitsNeverRise | scripts/code_size_policy.py:208-231 | between any two commits of a passing chain no limit has risen and nothing was newly frozen |
| CodeRatchet.OversizedWasFrozen | scripts/check_code_size.py:309-366 | what is over its hard limit at the head of a passing chain lies in a file the first policy froze |
| CodeRatchet.FrozenFilesOnlyShrink | scripts/check_code_size.py:377-395 | a frozen file present throughout a stretch of a passing chain has no more lines at its end than at its start |
| CodeRatchet.NeverGrowsIffNoGap | scripts/check_code_size.py:377-395 | for every pattern of presence that starts and ends present: no passing chain with it lets the frozen file grow if and only if the pattern has no gap |
| CodeRatchet.DeletedFileMayComeBackLarger | scripts/check_code_size.py:377-395 | the shortest such pattern: a passing chain in which a frozen file leaves and returns with more lines |
| CodeRatchet.KeyEnteredWithin | scripts/check_code_size.py:396-420 | a callable in a frozen file whose key the chain did not start with entered in some commit with everything of that key within the hard limit |
| CodeRatchet.EntryIsAllowed | scripts/check_code_size.py:396-420 | every such entry is allowed: any passing chain goes on with the key within the limit and then at any size |
| CodeRatchet.OversizedNeedsTwoCommits | scripts/check_code_size.py:396-420 | a new callable over the limit can be brought into a frozen file by a passing chain of n commits, the base included, if and only if n is at least three |
| CodeRatchet.CallableGrowsInTwoCommits | scripts/check_code_size.py:396-420 | a passing chain that brings an oversized callable into a frozen file in two commits |
| StaticStrings.MoreNamesSameResult | scripts/observability_worker_contract.py:21-32 | a set found with some names removed is found unchanged with them put back |
| StaticStrings.ResultUnrolls | scripts/observability_worker_contract.py:21-32 | what the evaluator finds is found by unrolling assignments no deeper than there are names |
| StaticStrings.UnrolledIsFound | scripts/observability_worker_contract.py:24-25 | what any unrolling finds, the evaluator finds even without the names that cannot be evaluated in the remaining depth |
| StaticStrings.RemovalIsComplete | scripts/observability_worker_contract.py:21-32 | removing each name on the way down ends on cyclic assignments and loses nothing: a set is found if and only if some unrolling finds it |
| StaticStrings.FoundSplits | scripts/observability_worker_contract.py:21-32 | the set found is the visited elements and the iterated texts, the strings of the value are the elements and the characters of those texts |
| StaticStrings.FoundIsTheValueIff | scripts/observability_worker_contract.py:21-32 | in every environment that satisfies the assignments the set found is the set of strings the expression evaluates to if and only if the texts iterated over, and their characters, are elements anyway |
| StaticStrings.FoundIsTheValue | scripts/observability_worker_contract.py:21-32 | if no text of other than one character is iterated over, the set found is right |
| StaticStrings.FrozensetOfText | scripts/observability_worker_contract.py:30-31 | for `frozenset` of a string literal the set found is right if and only if the string has one character |
| EnvFile.ParseEnvValues | scripts/openclaw_setup_env.py:25-36 | the dictionary filled in the loop holds for each key what its last assignment gives |
| EnvFile.RewriteLines | scripts/openclaw_setup_env.py:53-64 | each managed key is rewritten where it comes first and dropped after, and the seen keys are the managed keys the old text assigns |
| EnvFile.UpdateEnvText | scripts/openclaw_setup_env.py:52-72 | the text written is the rewritten lines, a heading when keys are missing, and the missing keys in order, trimmed at the end |
| EnvFileTheorems.TrimmedAssignsSame | scripts/openclaw_setup_env.py:22-34 | trimming a line on the right changes neither its key nor its value |
| EnvFileTheorems.LineAssigns | scripts/openclaw_setup_env.py:62 | a written line assigns its key the value stripped and unquoted |
| EnvFileTheorems.WrittenText | scripts/openclaw_setup_env.py:72 | the written text splits into exactly the lines that trimming left |
| EnvFileTheorems.UpdateThenParse | scripts/openclaw_setup_env.py:52-72 | parsing the updated text gives the old values overridden by the updates, stripped and unquoted |
| EnvFileStability.EachKeyOnce | scripts/openclaw_setup_env.py:60-71 | after an update exactly one line assigns each key of the updates |
| EnvFileStability.OtherLinesStay | scripts/openclaw_setup_env.py:56-70 | all other lines keep text and order up to the space at the end of the file, and gain at most the heading |
| EnvFileStability.UpdateTwice | scripts/openclaw_setup_env.py:52-72 | updating an updated text with the same values gives the same text |
| EnvFileRows.SplitLinesIff | scripts/openclaw_setup_env.py:27 | the lines of a text are the one way to cut it at its line boundaries, carriage return and line feed being one |
| EnvFileRows.SpacesAre | scripts/openclaw_setup_env.py:22-34 | the white space that is trimmed, by code point |
| EnvFileRows.BreaksAre | scripts/openclaw_setup_env.py:27 | the line boundaries, by code point |
| EnvFileRows.EntryIff | scripts/openclaw_setup_env.py:22-35 | a line assigns a value if and only if it is white space, a key, white space, an equals sign and a text that trims and unquotes to the value |
| EnvFileRows.RewrittenLines | scripts/openclaw_setup_env.py:55-64 | what becomes of the line at each place: itself, the new assignment where its key comes first, or nothing |
| EnvFileRows.HeadingRows | scripts/openclaw_setup_env.py:66-70 | when the heading has a blank line and the comment |
| RouteRepair.RevisionNeverDecides | scripts/migrate_apify_actor_ops_v15.py:524-573 | the query for revisions can never be the one that refuses, since the candidate it joins is counted first |
| RouteRepair.RemoveKeepsView | scripts/migrate_apify_actor_ops_v15.py:633-681 | deleting one route leaves everything the checks of another unsupported route look at, its jobs included |
| RouteRepair.EarlierRemovalsKeepView | scripts/migrate_apify_actor_ops_v15.py:503-681 | the checks of a route come out after any earlier rounds as they would have at the start |
| RouteRepair.Catalog.CheckRuns | scripts/migrate_apify_actor_ops_v15.py:575-606 | passes exactly when every discovery run of the route is terminal, found nothing and has no revisions |
| RouteRepair.Catalog.Check | scripts/migrate_apify_actor_ops_v15.py:507-631 | passes exactly when the route has three empty slots, no evidence and no work left, and names the first obstacle otherwise, that of the run with the lowest id among the runs |
| RouteRepair.Catalog.Delete | scripts/migrate_apify_actor_ops_v15.py:633-678 | removes the route with its jobs, runs and slots, raises its workspace's channel route, and reports how many such routes there are |
| RouteRepair.Catalog.RepairOne | scripts/migrate_apify_actor_ops_v15.py:503-686 | a round succeeds exactly when its route is removable and its workspace has one channel route |
| RouteRepair.Catalog.Repair | scripts/migrate_apify_actor_ops_v15.py:479-700 | succeeds exactly when every unsupported route of every workspace is repairable in the old tables; otherwise nothing changes and the error is the obstacle of the first route that cannot be; the counters account for every deleted row |
| RouteRepairFacts.RemovalIsExact | scripts/migrate_apify_actor_ops_v15.py:633-677 | exactly the unsupported routes, their slots, runs and jobs are gone and every other row is kept, channel routes up to generation and stamp |
| RouteRepairFacts.GenerationsRise | scripts/migrate_apify_actor_ops_v15.py:666-681 | the surviving channel route ends above its old generation and above that of every route deleted in its workspace |
| RouteRepairFacts.BumpIsTheRise | scripts/migrate_apify_actor_ops_v15.py:666-686 | the reported bump, the sum of generation plus one over the deleted routes, is the total rise of all channel generations |
| RouteRepairFacts.RepairTwice | scripts/migrate_apify_actor_ops_v15.py:479-700 | a second repair finds nothing to delete or reset and changes nothing |
| RouteRepairRows.RepairableIff | scripts/migrate_apify_actor_ops_v15.py:507-681 | a route can be repaired if and only if it has three empty slots, no candidate, binding, validation, attempt, health or observation row of its own, only finished runs that found nothing, only final discovery jobs, and one channel route beside it |
| RouteRepairRows.EvidenceRows | scripts/migrate_apify_actor_ops_v15.py:524-573 | the evidence named is the first kind in the script's order that has a row |
| RouteRepairRows.ObstacleRows | scripts/migrate_apify_actor_ops_v15.py:507-685 | the error of a repair that stops is the first obstacle among the rows |
| RouteRepairRows.RepairedRows | scripts/migrate_apify_actor_ops_v15.py:633-700 | every column of every table after a completed repair, and the settings counted are those that changed |
| Encodings.PrintThenRead | src/rsshub.py:107-116 | a printed number has no leading zero and reads back as itself |
| Encodings.ReadThenPrint | src/rsshub.py:107-116 | digits without a leading zero are the text of the number they read as |
| Encodings.PaddedSplits | src/auth.py:25-31 | the padding the encoder strips is the padding the decoder adds again |
| Encodings.EncodeThenDecode | src/auth.py:25-31 | decoding an encoded byte string gives it back, for every byte string |
| Passwords.PrintedHashIsRead | src/auth.py:54-70 | a stored hash is read as the iteration count, salt and digest it was printed from |
| Passwords.PassesIffSameKey | src/auth.py:63-75 | a password passes against a stored hash if and only if it derives the same key |
| Passwords.HashVerifiesItsPassword | src/auth.py:54-75 | every stored hash verifies the password it was made from |
| EncodedRows.EncodedBits | src/auth.py:25-26 | an encoded text spells the bits of its bytes, six at a time, in the URL-safe alphabet |
| EncodedRows.VerifiesIff | src/auth.py:63-75 | a stored text verifies a password if and only if it has four fields, names the algorithm, and the key derived with its count and salt is its digest |
| FeedRoutes.RecognizedIff | scripts/migrate_rsshub_sources.py:30-32 | a path is recognized as a UID if and only if it is the prefix, that UID and one of four endings |
| FeedRoutes.PrintedUidIsRecognized | src/rsshub.py:37-46 | every UID from 1 to 2^63-1 is normal, fits the nineteen digits of the pattern and is recognized from its feed path |
| FeedRoutes.NormalUids | src/rsshub.py:107-116 | normalizing is idempotent, keeps the number, and its results are recognized from their feed paths |
| FeedRoutes.RecognizedIsNormalIff | scripts/migrate_rsshub_sources.py:43-63 | a recognized UID is accepted by normalization if and only if it does not exceed 2^63-1 |
| FeedRoutes.TooLargeUidIsRecognized | scripts/migrate_rsshub_sources.py:30-32 | one more than the maximum is recognized and then refused |
| FeedRoutes.FeedUrlIsRecognized | src/rsshub.py:167-173 | the feed URL on a service root without a path splits into that root and a path recognized as the UID |
| UrlRows.SplitIff | src/rsshub.py:73-77 | a URL with an authority splits in one way: no colon in the scheme, the authority up to the first slash, question mark or hash, the path up to the next of the last two |
| UrlRows.RecognizedForms | scripts/migrate_rsshub_sources.py:30-32 | a path is recognized as a UID if and only if it is one of four literal forms of it |
| UrlRows.NormalUidIff | src/rsshub.py:107-116 | a text is normalized to a UID if and only if it trims to at most twenty digits of a number from 1 to 2^63-1, and the UID is that number without leading zeros |
| UrlRows.BadPathIff | src/rsshub.py:89-98 | a path is refused for a backslash, a percent sign, two slashes in a row, a piece of one or two dots, white space or a control character |
| UrlRows.HostRows | src/rsshub.py:73-77 | the host and port text of an authority, inside the first brackets if there are any, otherwise up to the first colon |
| UrlRows.ReadBaseIff | src/rsshub.py:65-104 | a stripped text is read as a base if and only if it is short and plain and its parts are accepted: http or https, no credentials, query or fragment, a host, a port in range, a fit path; scheme and host come out in lower case, the path without slashes at its end |
| UrlRows.ErrorsIff | src/rsshub.py:65-99 | which error a refused text gives, the library's own coming before those of scheme, host, credentials, query and fragment |
| UrlRows.CandidateIff | scripts/migrate_rsshub_sources.py:43-63 | a URL is a candidate for a UID if and only if it is plain HTTP with a host and its path names the UID |
| BaseUrls.ReadFits | src/rsshub.py:65-104 | what normalization accepts prints no longer than the text |
| BaseUrls.ReadIsGood | src/rsshub.py:65-104 | what normalization accepts of an ASCII text has a lower-case scheme and host, a port in range and a clean path, in the printable form that is read back, if and only if its host does not hold a bracket without a colon |
| BaseUrls.GoodIsRead | src/rsshub.py:65-104 | the printed form of such a base is read back as itself |
| BaseUrls.FeedSplits | src/rsshub.py:167-173 | the feed URL of a UID on a normalized base splits into the scheme and authority of the base and its path followed by the feed path |
| BaseUrls.FeedIsRecognizedIff | scripts/migrate_rsshub_sources.py:43-63 | with its checks of scheme, host, credentials, query and fragment, the candidate function finds the UID in its feed URL if and only if the base has no path, and nothing otherwise |
| BaseUrls.LastCharacter | src/rsshub.py:100-104 | the printed form ends in a space exactly when a bare host does and neither port nor path follows |
| BaseUrls.ReadChangesAgain | src/rsshub.py:65-104 | an accepted text gives a base whose host holds a bracket without a colon, or that ends in a space, exactly when the host of the text has no colon and holds a bracket, or ends in a space with no port and only slashes behind it |
| BaseUrls.StrayIsRefused | src/rsshub.py:65-104 | a base whose host holds a bracket without a colon is refused when its text is read |
| BaseUrls.NormalizeTwice | src/rsshub.py:65-104 | normalizing an accepted ASCII base URL again gives the same if and only if the text does not have that form |
| BaseUrls.SpaceBeforeRootPath | src/rsshub.py:65-104 | a concrete base URL whose second normalization differs from the first, whatever the bracket check |
| BaseUrls.BracketInHost | src/rsshub.py:65-104 | a concrete base URL with a bracketed host whose second normalization is refused |

## Left out

- SQLite itself: locking, file permissions, fsync and atomic replacement; a transaction is commit or rollback, an integrity check an input.
- Columns that are only carried along stand as one value; log output, JSON reports and argument parsing are not modelled.
- The schema modules, the service store, source configuration and evidence services are not part of this model; installing a version is marker plus valid shape, or a failure.
- The v17 script's job guard, backup and restore around the cost repair repeat the installer shape.
- The `status` command, backups and the code revision kept on the receipt of the retirement.
- LIKE in the legacy queries is modelled for ASCII letters, as SQLite folds them.
- The inspections of the v15 and v16 schemas, and the constraints of the rebuilt tables on columns that only are carried along.
- CostRepeats.SecondRepairRepeatsIff: compares the validations; the stamps of runs and attempts move with every repair, and a run that only the second repair frees has its charge settled then.
- NotificationMigration.NotificationDb.MigrateV16: for a database that exists; preparing the store before the rewrite is taken to keep all rows; a crash of the process is not a step of the run, what it leaves is NotificationTheorems.SecondRewriteIff.
- NotificationMigration.NotificationDb.ApplyV16: with other writers between its commits it promises no more than that a refused insert changes nothing and that no transaction is left open, since those writers may change any row.
- Installers.Host.Migrate: does not promise unchanged v1 facts outright, since the installers of versions 33 to 36 do not compare them; it promises them when the schema module keeps them.
- Installer versions v37 to v49 repeat the shape of versions 33 to 36 without new state.
- The scope argument of the code-size checker, which only narrows the paths it looks at.
- TypeScript metrics come from Node and are an input; so are git lookups of the base policy and the initial-policy branch of the comparison.
- Reading trees from source files and the set comparisons of the worker registry check, which use the evaluator on fixed names.
- EnvFileTheorems.UpdateThenParse: for keys that are names and values without line breaks, as setup passes them; a value with a break is written as two lines.
- Default port and managed update values of the setup, which only select constants.
- Encodings.EncodeThenDecode: the decoder follows the standard library in skipping foreign characters; digits outside ASCII in iteration counts are not modelled.
- Key derivation is a parameter that may raise; randomness of the salt is an arbitrary byte string, and comparison in constant time is equality.
- BaseUrls.NormalizeTwice: for ASCII texts; the library's check of bracketed authorities is a parameter, with a host that is not empty, does not begin with a bracket and is accepted again in lower case with any port. Libraries without such a check are not covered.
- BaseUrls.FeedIsRecognizedIff: of the source's config only its URL is looked at, not its provider.
- FeedRoutes.FeedUrlIsRecognized: URL splitting is modelled for texts with an explicit authority, without the library's removal of control characters.
- The configuration and database rewrites around the recognized feed URLs, and the access code appended to requests.
