# BigDataDIRAC job scheduling and monitoring, modelled in Dafny

BigDataDIRAC extends the DIRAC workload management system so that grid jobs
can be run on Hadoop (versions 1 and 2, optionally through Hive or as
interactive jobs) and Twister clusters. This project models its core:

- the **job ledger** (`BigDataDB`): the table definitions, the status and
  software vocabularies, the status queries gated by those vocabularies, and
  the stalled-job sweep;
- the **scheduler agent** (`BigDataJobScheduler`): the submit-pool
  bookkeeping (`__checkSubmitPools`), the per-endpoint slot count, the
  matcher that decides whether a waiting job may run on an endpoint, the
  per-cycle aggregate of admitted jobs and the final dispatch to the
  directors;
- the **director** (`SoftBigDataDirector`, `BigDataDirector`): the endpoint
  registry read from the configuration, the submission sequence that
  records a job in the ledger and the driver table that picks a backend;
- the **backends** (`HadoopV1`, `HadoopV2`, `HadoopV2Interactive`, `HiveV1`
  and the `HadoopV1Client`, `HadoopV2Client`, `HadoopV2InteractiveClient`
  command clients): the job descriptors, the names they build and how they
  parse a submission's or a status query's output;
- the **monitor agent** (`BigDataJobMonitoring`): the watch-list of
  endpoints and the mapping from a backend's answer to a ledger status;
- the **interactive job monitor** (`InteractiveJobMonitor`): the job id read
  from the output path, the step1/step2/step3 state machine and the
  output-sandbox resolver.

The source is Python 2. Python exceptions are values
(`Base.Py<T> = Returned(T) | Raised(exception)`) and DIRAC's `S_OK`/`S_ERROR`
is `Base.Result<T>`, so the exceptions the modelled code raises itself
(`KeyError`, `IndexError`, `TypeError`, `NameError`, `AttributeError`,
`RuntimeError`, `ValueError` and the agent's abort) are results the
contracts state, except where Left out names a call the model takes as
intended (the ledger methods `BigDataDB.py` does not define, the two
unreachable lines of `HadoopV2.submit`). What DIRAC or another library
raises inside a call the model takes as a parameter is not modelled. Python dictionaries are association lists (module
`Assoc`) whose order is the caller's. The configuration, the job database,
the task queue, the file catalogue, ssh and the local file system are
function-typed parameters.

Several call sites of the source cannot run as written (arity mismatches,
undefined names and attributes). Where that happens an operation takes a
`Mode`: `AsWritten` follows the code, `Intended` is the evidently intended
behaviour. Both are proved about; the defects are listed under Findings.

Modules: `Base`, `Text`, `Assoc` (Python primitives), `Ledger`, `Registry`,
`Calls`, `Matcher`, `SubmitPools`, `Scheduler`, `Director`, `Drivers`,
`Clients`, `Monitor`, `InteractiveMonitor`.

An endpoint section that lacks one
of the required options is not copied with the option missing: the copy
reads the option by key and raises `KeyError`
(`Registry.AsWrittenMissingOptionRaises`).

## Model

| member | source | states |
|---|---|---|
| Text.Split | BigDataDIRAC/WorkloadManagementSystem/private/InteractiveJobMonitor.py:60 | there is at least one piece and no piece holds the separator |
| Text.LastPieceAfterSeparator | BigDataDIRAC/WorkloadManagementSystem/private/InteractiveJobMonitor.py:60 | the last piece of a split is whatever follows the last separator, as the file name after the final '/' |
| Text.JoinSplit | BigDataDIRAC/WorkloadManagementSystem/private/InteractiveJobMonitor.py:60 | splitting and joining again gives back the text |
| Text.SplitJoin | BigDataDIRAC/WorkloadManagementSystem/private/InteractiveJobMonitor.py:60 | pieces without the separator are recovered by splitting their join |
| Text.RStrip | BigDataDIRAC/WorkloadManagementSystem/Client/HadoopV2InteractiveClient.py:167-168 | the result is a prefix without trailing space, and only space was cut |
| Text.LStrip | BigDataDIRAC/WorkloadManagementSystem/private/InteractiveJobMonitor.py:73 | the result is a suffix without leading space, and only space was cut |
| Text.PyInt | BigDataDIRAC/WorkloadManagementSystem/private/InteractiveJobMonitor.py:73-74 | a digit string, once stripped, gives its value; anything raised is ValueError |
| Text.NatToString | BigDataDIRAC/WorkloadManagementSystem/private/InteractiveJobMonitor.py:60 | the decimal text of a number is all digits |
| Text.NatToStringValue | BigDataDIRAC/WorkloadManagementSystem/private/InteractiveJobMonitor.py:60 | reading the decimal text of a number gives the number back |
| Text.IntOfNatToString | BigDataDIRAC/WorkloadManagementSystem/private/InteractiveJobMonitor.py:60 | `int()` of the decimal text of a number gives the number back |
| Assoc.Get | BigDataDIRAC/WorkloadManagementSystem/Agent/BigDataJobScheduler.py:143 | a key has a value iff it is among the keys |
| Assoc.Put | BigDataDIRAC/WorkloadManagementSystem/Agent/BigDataJobScheduler.py:143-149 | the key maps to the new value, every other key keeps its value, the keys grow by that key and stay distinct |
| Assoc.Remove | BigDataDIRAC/WorkloadManagementSystem/Agent/BigDataJobScheduler.py:200 | the key is gone and every other key keeps its value |
| Ledger.SoftwareLiteralIsOneString | BigDataDIRAC/WorkloadManagementSystem/DB/BigDataDB.py:38 | the software vocabulary holds exactly one string, "hdv1,hdv2,twister", so none of the software names is in it |
| Ledger.VocabulariesUndefined | BigDataDIRAC/WorkloadManagementSystem/DB/BigDataDB.py:35-41 | the version, language and instance-state vocabularies the queries read are not defined |
| Ledger.GetTypeTuple | BigDataDIRAC/WorkloadManagementSystem/DB/BigDataDB.py:94-110 | a table name is returned exactly for "job" and "software"; it is a described table whose primary key is the returned id column, with the matching vocabulary; any other element gets the empty tuple |
| Ledger.TablesToCreate | BigDataDIRAC/WorkloadManagementSystem/DB/BigDataDB.py:156-171 | the tables created are disjoint from those present, and together they cover every described table, with its description |
| Ledger.InitializeDB | BigDataDIRAC/WorkloadManagementSystem/DB/BigDataDB.py:156-171 | a failed SHOW TABLES is passed on; otherwise exactly the described tables missing from the database are created |
| Ledger.InitializeIdempotent | BigDataDIRAC/WorkloadManagementSystem/DB/BigDataDB.py:156-171 | after the missing tables are created a second initialisation creates nothing |
| Ledger.OldJobIds | BigDataDIRAC/WorkloadManagementSystem/DB/BigDataDB.py:196-209 | an id is selected if and only if some row with that id is stale: in one of the given states and idle longer than the stalling interval |
| Ledger.AsWrittenStaleSelectsNothing | BigDataDIRAC/WorkloadManagementSystem/DB/BigDataDB.py:177 | iterating 'Stalled' by character gives one-letter states, so rows without a one-letter status (every job state has more letters) select nothing |
| Ledger.IntendedStaleSelection | BigDataDIRAC/WorkloadManagementSystem/DB/BigDataDB.py:173-194 | with the states as a one-element list, a Running job idle past 1800 seconds is selected, and a job with a unique id is selected only if it is such a job |
| Ledger.DeclareStalledJobs | BigDataDIRAC/WorkloadManagementSystem/DB/BigDataDB.py:173-194 | a failed selection is passed on and no old job gives an empty list; as written any old job raises AttributeError, because the class defines no `__setState`; as intended the result lists, in order, exactly the selected jobs whose Stalled update succeeded |
| Ledger.IntendedSweep | BigDataDIRAC/WorkloadManagementSystem/DB/BigDataDB.py:173-194 | as intended a job is declared Stalled iff it is Running, idle past 1800 seconds and its state change succeeds (for rows with distinct ids) |
| Ledger.AsWrittenSweep | BigDataDIRAC/WorkloadManagementSystem/DB/BigDataDB.py:173-194 | as written a table without one-letter statuses gives an empty list, and a selected row makes the sweep raise AttributeError |
| Ledger.JobsByStatus | BigDataDIRAC/WorkloadManagementSystem/DB/BigDataDB.py:112-153 | an undefined vocabulary raises AttributeError, a status outside it is an error before the query runs, a failed query is passed on, and no call ever returns rows |
| Ledger.JobsByStatusIntended | BigDataDIRAC/WorkloadManagementSystem/DB/BigDataDB.py:112-153 | a status in the vocabulary gets the query's answer; any other status is an error |
| Ledger.RejectedBeforeQuery | BigDataDIRAC/WorkloadManagementSystem/DB/BigDataDB.py:116-117 | for a status outside the vocabulary the answer does not depend on the database |
| Ledger.AsWrittenStatusQueriesRaise | BigDataDIRAC/WorkloadManagementSystem/DB/BigDataDB.py:112-153 | every status query raises AttributeError, and even with a vocabulary a successful query raises TypeError at `['Value'][0][0]` |
| Ledger.JobStatesLackRunningAndUnknown | BigDataDIRAC/WorkloadManagementSystem/DB/BigDataDB.py:35-36 | the job-state vocabulary has Submitted but neither Running nor Unknown, the states the monitor asks about |
| Ledger.IntendedStatusQueries | BigDataDIRAC/WorkloadManagementSystem/DB/BigDataDB.py:112-153 | the corrected vocabulary answers Submitted, Running and Unknown from the database and rejects Finished |
| Ledger.SetBackendId | BigDataDIRAC/Resources/BigData/SoftBigDataDirector.py:131 | only the job's backend id changes; all other rows are untouched |
| Ledger.SetJobStatus | BigDataDIRAC/WorkloadManagementSystem/Agent/BigDataJobMonitoring.py:93-115 | only the job's status changes; all other rows are untouched |
| Registry.ReadInt | BigDataDIRAC/Resources/BigData/SoftBigDataDirector.py:91 | an option becomes an integer exactly when it is present and numeric; otherwise KeyError or ValueError |
| Registry.CopyEndpoint | BigDataDIRAC/Resources/BigData/SoftBigDataDirector.py:89-103 | the copy succeeds exactly when every read option is present and the numbers parse; then each field holds the configured value, the whole Requirements section is carried with CPUTime converted to an integer and every other option as it came, and UsePilot and IsInteractive are never set |
| Registry.Copy | BigDataDIRAC/Resources/BigData/SoftBigDataDirector.py:82-103 | as written a section is always copied or raises; as intended a section lacking an option is skipped, and the pilot options are carried over |
| Registry.LoadSection | BigDataDIRAC/Resources/BigData/SoftBigDataDirector.py:70-103 | existing endpoints are kept, new ones are requested names whose copy succeeded, keys stay distinct, and a fetch error stops the loop with only earlier names added |
| Registry.LoadSectionComplete | BigDataDIRAC/Resources/BigData/SoftBigDataDirector.py:70-103 | a new requested name whose lookup and copy succeed, with no failed lookup of a new name before it, is in the registry with its copy |
| Registry.FetchFailureStops | BigDataDIRAC/Resources/BigData/SoftBigDataDirector.py:76-79 | an unknown name whose section cannot be read ends the load with that error and no change |
| Registry.Requested | BigDataDIRAC/Resources/BigData/SoftBigDataDirector.py:70 | the option's list when set, otherwise exactly the endpoints already known |
| Registry.KnownNamesNoOp | BigDataDIRAC/Resources/BigData/SoftBigDataDirector.py:74-75 | requesting only known endpoints changes nothing |
| Registry.AbsentOptionNoOp | BigDataDIRAC/Resources/BigData/SoftBigDataDirector.py:70-75 | without a RunningEndPoints option the registry is unchanged |
| Registry.Configure | BigDataDIRAC/Resources/BigData/SoftBigDataDirector.py:28-58 | the registry has distinct names, each copied from its own section, and each requested by the base section or named in the pool section's option |
| Registry.ConfigureComplete | BigDataDIRAC/Resources/BigData/SoftBigDataDirector.py:28-58 | a name the base section requests, or the pool section names, whose copy succeeds is in the registry with that copy when no lookup of the sections' names fails |
| Registry.BaseSectionWins | BigDataDIRAC/Resources/BigData/SoftBigDataDirector.py:28-38 | an endpoint loaded from the base section keeps that definition after the pool section is read |
| Registry.AsWrittenMissingOptionRaises | BigDataDIRAC/Resources/BigData/SoftBigDataDirector.py:82-103 | a new section lacking an option raises instead of being skipped |
| Registry.IntendedMissingOptionSkips | BigDataDIRAC/Resources/BigData/SoftBigDataDirector.py:82-87 | a new section lacking an option is skipped and the load goes on with the rest |
| Registry.CopiedPilotOptions | BigDataDIRAC/WorkloadManagementSystem/Agent/BigDataJobScheduler.py:197-198 | as written no endpoint carries UsePilot or IsInteractive; as intended each carries its section's values |
| Calls.BindPositional | BigDataDIRAC/Resources/BigData/SoftBigDataDirector.py:105-107 | a positional call binds each parameter to its argument exactly when the counts agree, and raises TypeError otherwise |
| Calls.AsWrittenCallsRaise | BigDataDIRAC/WorkloadManagementSystem/Agent/BigDataJobScheduler.py:278-284 | the four mismatched call sites pass 17 for 14, 7 for 10, 7 for 6 and 3 for 2 arguments and each raises TypeError |
| Calls.HadoopV2ReadsDatasetAsArguments | BigDataDIRAC/Resources/BigData/BigDataDirector.py:89 | the call to HadoopV2 binds, and its Arguments parameter receives the dataset |
| Matcher.DatasetOf | BigDataDIRAC/WorkloadManagementSystem/Agent/BigDataJobScheduler.py:305-312 | the first InputData entry, or the empty string when there is none or the lookup failed |
| Matcher.ReplicaSites | BigDataDIRAC/WorkloadManagementSystem/Agent/BigDataJobScheduler.py:361-366 | nothing for a failed or empty catalogue answer, KeyError when the dataset is missing from a non-empty answer, otherwise the dataset's sites |
| Matcher.DatasetScan | BigDataDIRAC/WorkloadManagementSystem/Agent/BigDataJobScheduler.py:317-329 | admits exactly when some replica site is the endpoint; gives no verdict only for no sites and no early exit |
| Matcher.SoftwareScan | BigDataDIRAC/WorkloadManagementSystem/Agent/BigDataJobScheduler.py:365-372 | admits iff the software matches and a site is the endpoint; no site is a no-match; a site without the software is the third verdict |
| Matcher.ArgumentPath | BigDataDIRAC/WorkloadManagementSystem/Agent/BigDataJobScheduler.py:337-372 | admits if and only if the tokens are in the vocabularies, at least four, match the endpoint and the dataset has a replica at it |
| Matcher.MatchJob | BigDataDIRAC/WorkloadManagementSystem/Agent/BigDataJobScheduler.py:298-372 | an admitted job has a replica at the endpoint and, with Arguments, tokens matching the endpoint; no InputData or no dataset without Arguments is invalid |
| Matcher.DatasetOnlyDecision | BigDataDIRAC/WorkloadManagementSystem/Agent/BigDataJobScheduler.py:317-329 | without Arguments a job is admitted iff a replica is at the endpoint; other sites give the second verdict, no sites a TypeError |
| Matcher.CatalogFailureIsError | BigDataDIRAC/WorkloadManagementSystem/Agent/BigDataJobScheduler.py:361-364 | a failed or empty catalogue answer is the catalogue-failure verdict |
| Matcher.ArgumentDecision | BigDataDIRAC/WorkloadManagementSystem/Agent/BigDataJobScheduler.py:337-372 | with valid Arguments a job is admitted iff the tokens match and a replica is at the endpoint; no-match iff no replica is there |
| Matcher.AsWrittenArgumentsNeverAdmit | BigDataDIRAC/WorkloadManagementSystem/Agent/BigDataJobScheduler.py:337-357 | with the vocabularies as written a job with Arguments is never admitted |
| Matcher.ArgumentsTokens | BigDataDIRAC/WorkloadManagementSystem/Agent/BigDataJobScheduler.py:337-340 | Arguments built from software, version, language and language version split back into those four tokens |
| Matcher.IntendedVocabulariesAdmit | BigDataDIRAC/WorkloadManagementSystem/Agent/BigDataJobScheduler.py:337-372 | with the corrected vocabularies a well-formed job whose dataset has a replica at the endpoint is admitted |
| SubmitPools.DisableAll | BigDataDIRAC/WorkloadManagementSystem/Agent/BigDataJobScheduler.py:443 | every director is kept and disabled, nothing else changes |
| SubmitPools.AddPool | BigDataDIRAC/WorkloadManagementSystem/Agent/BigDataJobScheduler.py:535-550 | a pool is appended exactly when it is non-empty and new |
| SubmitPools.CreateDirector | BigDataDIRAC/WorkloadManagementSystem/Agent/BigDataJobScheduler.py:481-511 | with a usable pool a disabled, unconfigured director is entered and its pool recorded; with an empty new pool nothing changes |
| SubmitPools.ConfigureDirector | BigDataDIRAC/WorkloadManagementSystem/Agent/BigDataJobScheduler.py:513-533 | a missing director aborts the agent, a configuration error is passed on, otherwise the director is enabled with the configured endpoints |
| SubmitPools.ConfigureStep | BigDataDIRAC/WorkloadManagementSystem/Agent/BigDataJobScheduler.py:449-458 | one turn of the loop enables its director with the registry it configured, keeps the agent well formed and leaves every other director as it was |
| SubmitPools.ConfigurePools | BigDataDIRAC/WorkloadManagementSystem/Agent/BigDataJobScheduler.py:447-460 | the agent stays well formed and keeps its pools and other directors; when the loop ends every configured pool's director is enabled with its endpoints; a raise is the abort or a director's configuration error, and keeps the directors set up before it |
| SubmitPools.DropDisabled | BigDataDIRAC/WorkloadManagementSystem/Agent/BigDataJobScheduler.py:464-472 | exactly the enabled directors remain, unchanged |
| SubmitPools.DropPools | BigDataDIRAC/WorkloadManagementSystem/Agent/BigDataJobScheduler.py:475-479 | as written the first unused pool is popped and the loop then raises RuntimeError, leaving the other pools; without an unused pool nothing changes; as intended exactly the pools in use or named Default remain, in order |
| SubmitPools.CheckSubmitPools | BigDataDIRAC/WorkloadManagementSystem/Agent/BigDataJobScheduler.py:437-479 | a raise while configuring keeps the agent as far as it got; once configured, exactly the configured directors remain, enabled and freshly configured with their pools present, and Default is kept; as written the pool sweep raises iff a pool is unused |
| SubmitPools.UnusedPoolRaisesOnce | BigDataDIRAC/WorkloadManagementSystem/Agent/BigDataJobScheduler.py:475-479 | pools Default and P with no director: the first check pops P and raises, the next one returns |
| SubmitPools.EmptyPoolAborts | BigDataDIRAC/WorkloadManagementSystem/Agent/BigDataJobScheduler.py:495-527 | a new director whose Pool option is empty aborts the agent |
| Scheduler.FreeSlots | BigDataDIRAC/WorkloadManagementSystem/Agent/BigDataJobScheduler.py:96-112 | there is room iff Submitted plus Running is below the limit, and the room is what fills it |
| Scheduler.FailedCountIsZero | BigDataDIRAC/WorkloadManagementSystem/Agent/BigDataJobScheduler.py:96-103 | a failed count query counts as zero jobs |
| Scheduler.EnsureQueue | BigDataDIRAC/WorkloadManagementSystem/Agent/BigDataJobScheduler.py:143-144 | entering a task queue changes no job's membership |
| Scheduler.AddJob | BigDataDIRAC/WorkloadManagementSystem/Agent/BigDataJobScheduler.py:143-148 | the pending jobs gain exactly the pulled job |
| Scheduler.RemoveJob | BigDataDIRAC/WorkloadManagementSystem/Agent/BigDataJobScheduler.py:200 | the pending jobs lose exactly the admitted job |
| Scheduler.AdmitInto | BigDataDIRAC/WorkloadManagementSystem/Agent/BigDataJobScheduler.py:177-199 | the admitted slot holds the new entry, every other slot is unchanged, the aggregate stays well formed |
| Scheduler.KeepsTransitive | BigDataDIRAC/WorkloadManagementSystem/Agent/BigDataJobScheduler.py:128-246 | the cycle's bookkeeping invariant composes across steps |
| Scheduler.EntryFor | BigDataDIRAC/WorkloadManagementSystem/Agent/BigDataJobScheduler.py:177-199 | as written the entry exists only if the endpoint carries UsePilot and IsInteractive; it records the job, the endpoint, the slots and the dataset |
| Scheduler.Record | BigDataDIRAC/WorkloadManagementSystem/Agent/BigDataJobScheduler.py:177-200 | an admission is logged once and its job leaves pending |
| Scheduler.TryMatch | BigDataDIRAC/WorkloadManagementSystem/Agent/BigDataJobScheduler.py:152-200 | one match logs at most one admission, of this job, and removes the job from pending exactly when it logs it |
| Scheduler.FirstPass | BigDataDIRAC/WorkloadManagementSystem/Agent/BigDataJobScheduler.py:128-202 | pulling and matching keeps the bookkeeping invariant |
| Scheduler.RetryPass | BigDataDIRAC/WorkloadManagementSystem/Agent/BigDataJobScheduler.py:204-246 | retrying pending jobs keeps the invariant and pulls nothing new |
| Scheduler.CountQuery | BigDataDIRAC/WorkloadManagementSystem/Agent/BigDataJobScheduler.py:96-103 | as written the count never returns a number and raises AttributeError with the vocabulary undefined; as intended it is the database's count for a watched status |
| Scheduler.ServeEndpoint | BigDataDIRAC/WorkloadManagementSystem/Agent/BigDataJobScheduler.py:91-246 | a raising count stops the cycle unchanged; a full endpoint is skipped; anything is admitted only when both counts returned and there is room; with room the task queues are looked up by the endpoint's whole Requirements dictionary, and a failed lookup is returned as the cycle's result |
| Scheduler.ServeEndpoints | BigDataDIRAC/WorkloadManagementSystem/Agent/BigDataJobScheduler.py:93-246 | serving a director's endpoints keeps the invariant |
| Scheduler.ServeDirectors | BigDataDIRAC/WorkloadManagementSystem/Agent/BigDataJobScheduler.py:91-246 | serving all directors keeps the invariant |
| Scheduler.Disable | BigDataDIRAC/WorkloadManagementSystem/Agent/BigDataJobScheduler.py:285-287 | only the refusing director changes, to disabled |
| Scheduler.DispatchSlots | BigDataDIRAC/WorkloadManagementSystem/Agent/BigDataJobScheduler.py:253-289 | each slot is asked once, only while its director is enabled, a refusal disables the director, and every slot of a director that stays enabled is asked |
| Scheduler.FlatMembership | BigDataDIRAC/WorkloadManagementSystem/Agent/BigDataJobScheduler.py:253-256 | flattening the aggregate lists exactly its slots |
| Scheduler.FlatDistinct | BigDataDIRAC/WorkloadManagementSystem/Agent/BigDataJobScheduler.py:253-256 | each slot appears once in the flattened aggregate |
| Scheduler.Dispatch | BigDataDIRAC/WorkloadManagementSystem/Agent/BigDataJobScheduler.py:253-289 | only directors enabled at the start are asked, each for the job in one of its slots, with back pressure; every slot of a director still enabled is asked |
| Scheduler.Cycle | BigDataDIRAC/WorkloadManagementSystem/Agent/BigDataJobScheduler.py:80-296 | no pending job is lost, the dispatched job is the last one admitted per endpoint, and the dataset sent is the matcher's last (as written) or the job's own (as intended); a raise in the pool check ends the cycle with the partly reconciled agent, otherwise every configured submit pool keeps its director |
| Scheduler.FromFreshStart | BigDataDIRAC/WorkloadManagementSystem/Agent/BigDataJobScheduler.py:128-246 | from an empty aggregate the invariant yields no lost jobs and an aggregate of last admissions |
| Scheduler.DispatchKeepsWellFormed | BigDataDIRAC/WorkloadManagementSystem/Agent/BigDataJobScheduler.py:285-287 | disabling refusing directors keeps the agent well formed |
| Scheduler.DispatchedAreLastAdmitted | BigDataDIRAC/WorkloadManagementSystem/Agent/BigDataJobScheduler.py:278-284 | each dispatched request (the arguments RequestFor builds) carries the last admission for its endpoint, with that job's id and name; as written its dataset is the one the cycle's last match found, as intended the job's own |
| Scheduler.LastForAt | BigDataDIRAC/WorkloadManagementSystem/Agent/BigDataJobScheduler.py:177-199 | an admission not followed by another for the same endpoint is that endpoint's last |
| Scheduler.SlotHoldsLastAdmission | BigDataDIRAC/WorkloadManagementSystem/Agent/BigDataJobScheduler.py:177-199 | the slot holds the last admission for its endpoint, so an earlier one in the same cycle is overwritten |
| Scheduler.AdmissionRecorded | BigDataDIRAC/WorkloadManagementSystem/Agent/BigDataJobScheduler.py:170-200 | as intended an admitted job leaves pending and fills the endpoint's slot; as written, without UsePilot, it raises KeyError before anything is recorded |
| Scheduler.AsWrittenServeAdmitsNothing | BigDataDIRAC/WorkloadManagementSystem/Agent/BigDataJobScheduler.py:91-103 | with the vocabulary undefined the first endpoint's count raises and the state is unchanged |
| Scheduler.AsWrittenCycleSubmitsNothing | BigDataDIRAC/WorkloadManagementSystem/Agent/BigDataJobScheduler.py:80-296 | as written a cycle admits and submits nothing and leaves pending jobs as they were |
| Director.Submit | BigDataDIRAC/Resources/BigData/SoftBigDataDirector.py:105-134 | the checks write nothing; past them the job's row is there as Submitted; the backend id is set exactly when the backend returned one; other rows never change |
| Director.AsWrittenSubmitOrphansRow | BigDataDIRAC/Resources/BigData/SoftBigDataDirector.py:119-126 | as written, once the intended insert has written the row, the driver call that follows raises TypeError and leaves the row with no backend id |
| Director.ReadDriverConfig | BigDataDIRAC/Resources/BigData/BigDataDirector.py:41-53 | the four driver options are read when both sections and all keys are present; a section error is passed on; a missing key raises KeyError |
| Director.SelectDriver | BigDataDIRAC/Resources/BigData/BigDataDirector.py:60-120 | Hadoop with no language picks V1 or V2 by version, interactive iff IsInteractive is "1"; hive picks Hive; twister picks Twister only as intended; anything else is unknown |
| Director.PilotIrrelevant | BigDataDIRAC/Resources/BigData/BigDataDirector.py:65-66 | as intended UsePilot does not change the driver chosen |
| Director.AsWrittenAgreesElsewhere | BigDataDIRAC/Resources/BigData/BigDataDirector.py:60-120 | away from the defective branches the as-written choice is the intended one |
| Director.PigIsUnknown | BigDataDIRAC/Resources/BigData/BigDataDirector.py:76-77 | a pig job has no driver |
| Director.SubmitThroughTable | BigDataDIRAC/Resources/BigData/BigDataDirector.py:36-120 | configuration errors are passed on, an unknown driver is an error naming the software, a chosen driver's answer is returned, Twister's first id is taken |
| Director.TwisterId | BigDataDIRAC/Resources/BigData/BigDataDirector.py:113-118 | a failure is passed on, an empty id list raises IndexError, otherwise its first id |
| Director.SubmittedJobGetsBackendId | BigDataDIRAC/Resources/BigData/SoftBigDataDirector.py:105-134 | as intended a job the driver accepts ends with the driver's id recorded and the call returns OK |
| Drivers.OutputDirNamesJob | BigDataDIRAC/WorkloadManagementSystem/Client/HadoopV1.py:78-100 | the output directory lies under the job's class path and its last underscore piece is the job id |
| Drivers.V1Descriptor | BigDataDIRAC/WorkloadManagementSystem/Client/HadoopV1.py:73-104 | a job name of fewer than six underscore fields raises IndexError; otherwise the descriptor's name and input are fields of it and the paths are the job's |
| Drivers.V1DescriptorFields | BigDataDIRAC/WorkloadManagementSystem/Client/HadoopV1.py:99-102 | the input is the sixth field and the name the first |
| Drivers.ThirdWord | BigDataDIRAC/WorkloadManagementSystem/Client/HadoopV1.py:69-71 | fewer than three words raise IndexError; otherwise a single word |
| Drivers.ThirdWordOfWords | BigDataDIRAC/WorkloadManagementSystem/Client/HadoopV1.py:69-71 | of space-joined words it is the third |
| Drivers.SubmitV1 | BigDataDIRAC/WorkloadManagementSystem/Client/HadoopV1.py:40-67 | a short job name raises IndexError; a failed submission raises KeyError as written and is an error as intended; a non-zero exit is an error; the id is the third word of the output |
| Drivers.V2Descriptor | BigDataDIRAC/WorkloadManagementSystem/Client/HadoopV2.py:111-137 | Arguments of fewer than five words raise IndexError; otherwise the input is one word and the paths are the job's |
| Drivers.V2DescriptorInput | BigDataDIRAC/WorkloadManagementSystem/Client/HadoopV2.py:133 | the input is the fifth word |
| Drivers.LastWord | BigDataDIRAC/WorkloadManagementSystem/Client/HadoopV2.py:105-109 | a single word that is the whole output or follows a space in it |
| Drivers.LastWordOfWords | BigDataDIRAC/WorkloadManagementSystem/Client/HadoopV2.py:105-109 | of space-joined words it is the last |
| Drivers.SubmitV2 | BigDataDIRAC/WorkloadManagementSystem/Client/HadoopV2.py:45-83 | as written it always raises; as intended a failed submission is an error and a successful one yields the output's last word |
| Drivers.DatasetPath | BigDataDIRAC/WorkloadManagementSystem/Client/HadoopV2Interactive.py:104-110 | a dataset of fewer than three slash pieces gives the empty path |
| Drivers.DatasetPathDropsTwo | BigDataDIRAC/WorkloadManagementSystem/Client/HadoopV2Interactive.py:104-110 | the path is the dataset without its first two pieces, rooted |
| Drivers.OneWordCommandOutput | BigDataDIRAC/WorkloadManagementSystem/Client/HadoopV2Interactive.py:86-111 | a one-word job's command ends with its output directory, named after the job and its id |
| Drivers.ManyWordCommandIgnoresRest | BigDataDIRAC/WorkloadManagementSystem/Client/HadoopV2Interactive.py:91-102 | for a job name of several words only the first two words matter, and the dataset does not |
| Drivers.SubmitInteractive | BigDataDIRAC/WorkloadManagementSystem/Client/HadoopV2Interactive.py:51-124 | a failed JDL read raises; a failed job lookup raises KeyError as written and is an error as intended; otherwise the client's answer, with no answer a TypeError |
| Drivers.SubmitHive | BigDataDIRAC/WorkloadManagementSystem/Client/HiveV1.py:49-89 | a failed JDL read raises; a failed job lookup raises KeyError as written and is an error as intended; otherwise the client's answer for the job's staging and output paths |
| Drivers.Run | BigDataDIRAC/Resources/BigData/BigDataDirector.py:60-110 | as written HadoopV1 raises TypeError and HadoopV2 raises; as intended they submit the job's name, dataset and id |
| Clients.SubmitCommandWords | BigDataDIRAC/WorkloadManagementSystem/Client/HadoopV1Client.py:23-25 | the submit command is `hadoop job -submit` on the descriptor's path |
| Clients.StatusOfOutput | BigDataDIRAC/WorkloadManagementSystem/Client/HadoopV2Client.py:38-47 | output without a state line raises IndexError; otherwise one of Succeded, Running, Unknown |
| Clients.JobStatus | BigDataDIRAC/WorkloadManagementSystem/Client/HadoopV2Client.py:31-47 | an ssh failure is passed on, otherwise the status read from the output |
| Clients.FirstStateLineDecides | BigDataDIRAC/WorkloadManagementSystem/Client/HadoopV2Client.py:39-45 | the first state line decides: SUCCEEDED, RUNNING, anything else Unknown |
| Clients.HadoopStateLines | BigDataDIRAC/WorkloadManagementSystem/Client/HadoopV2Client.py:39 | the SUCCEEDED and RUNNING lines are state lines |
| Clients.StopFrom | BigDataDIRAC/WorkloadManagementSystem/Client/HadoopV2InteractiveClient.py:163-168 | the end of the id: the first stopping character from the start |
| Clients.FirstMatch | BigDataDIRAC/WorkloadManagementSystem/Client/HadoopV2InteractiveClient.py:163-168 | the leftmost match position, or none anywhere |
| Clients.MatchedId | BigDataDIRAC/WorkloadManagementSystem/Client/HadoopV2InteractiveClient.py:165-168 | the text a match covers, once right-stripped, still starts with job_ and holds no colon, and as intended no line break |
| Clients.SearchJobId | BigDataDIRAC/WorkloadManagementSystem/Client/HadoopV2InteractiveClient.py:163-168 | an id is found iff the pattern occurs; it starts with job_ and has no colon, and as intended no line break |
| Clients.SearchFindsLoggedId | BigDataDIRAC/WorkloadManagementSystem/Client/HadoopV2InteractiveClient.py:163-168 | the first logged id, with trailing blanks stripped, is the one found |
| Clients.AsWrittenIdRunsIntoNextLine | BigDataDIRAC/WorkloadManagementSystem/Client/HadoopV2InteractiveClient.py:165-168 | on two log lines the id found runs into the second line |
| Clients.IntendedIdIsFirstLine | BigDataDIRAC/WorkloadManagementSystem/Client/HadoopV2InteractiveClient.py:165-168 | stopping at the line break finds the first line's id |
| Clients.InteractiveSubmit | BigDataDIRAC/WorkloadManagementSystem/Client/HadoopV2InteractiveClient.py:42-168 | without a proxy NameError; a failed copy or a dead launch is an error; a failed step1 raises KeyError; otherwise an id starting job_ exactly when the output holds one |
| Monitor.CopyWatched | BigDataDIRAC/WorkloadManagementSystem/Agent/BigDataJobMonitoring.py:146-164 | the copy succeeds iff the section is complete, fields are filled in source order up to the first missing one, and a complete copy holds the section's values |
| Monitor.ConfigureFromSection | BigDataDIRAC/WorkloadManagementSystem/Agent/BigDataJobMonitoring.py:134-164 | an unreadable section is an error with no change; otherwise the endpoint holds the copy, even a partial one, and only that endpoint changes |
| Monitor.ConfigureAll | BigDataDIRAC/WorkloadManagementSystem/Agent/BigDataJobMonitoring.py:127-128 | unnamed endpoints are untouched; on success each readable section is copied in full; a raise comes from an incomplete section |
| Monitor.MonitoringPools | BigDataDIRAC/WorkloadManagementSystem/Agent/BigDataJobMonitoring.py:120-130 | a pool without EndPointMonitoring raises; only listed endpoints change; on success every listed readable endpoint is watched with its section's values |
| Monitor.StatusFor | BigDataDIRAC/WorkloadManagementSystem/Agent/BigDataJobMonitoring.py:91-97 | an answer is acted on iff it is Succeded, Unknown or Running, and only Done, Submitted or Running are written |
| Monitor.StatusForInverse | BigDataDIRAC/WorkloadManagementSystem/Agent/BigDataJobMonitoring.py:91-115 | the mapping is one to one between Succeded/Unknown/Running and Done/Submitted/Running, and never gives Unknown |
| Monitor.V1Block | BigDataDIRAC/WorkloadManagementSystem/Agent/BigDataJobMonitoring.py:81-97 | at most one write, and only for a Hadoop 1 endpoint with no high-level language |
| Monitor.V2Block | BigDataDIRAC/WorkloadManagementSystem/Agent/BigDataJobMonitoring.py:99-115 | at most one write, and only for a Hadoop 2 endpoint with no high-level language |
| Monitor.PollEndpoint | BigDataDIRAC/WorkloadManagementSystem/Agent/BigDataJobMonitoring.py:77-115 | a missing NameNode raises KeyError, no backend row IndexError; a write needs the endpoint to poll the job, is for this job, and is a watched status |
| Monitor.PollEndpointWritesAnswer | BigDataDIRAC/WorkloadManagementSystem/Agent/BigDataJobMonitoring.py:81-115 | an endpoint that polls the job writes the status its backend's answer maps to, and raises only when the Hadoop 2 status query does |
| Monitor.PollJob | BigDataDIRAC/WorkloadManagementSystem/Agent/BigDataJobMonitoring.py:75-115 | at most one write per watched endpoint, counting the writes kept when a later endpoint raises |
| Monitor.RaiseLosesNoWrite | BigDataDIRAC/WorkloadManagementSystem/Agent/BigDataJobMonitoring.py:81-115 | an endpoint that raises after matching the job's row has made no Hadoop 1 write, so no status write is lost with the raise |
| Monitor.PollJobSound | BigDataDIRAC/WorkloadManagementSystem/Agent/BigDataJobMonitoring.py:75-115 | every write, including those kept by a raising poll, is for the polled job, with a status other than Unknown, and some watched endpoint polls that job |
| Monitor.PollJobVisits | BigDataDIRAC/WorkloadManagementSystem/Agent/BigDataJobMonitoring.py:77-115 | a poll of a job that did not raise visited every watched endpoint, and each endpoint's writes are among the job's writes |
| Monitor.PollJobComplete | BigDataDIRAC/WorkloadManagementSystem/Agent/BigDataJobMonitoring.py:77-115 | every endpoint that polls the job and gets a mapped answer contributes its status |
| Monitor.PollJobsSound | BigDataDIRAC/WorkloadManagementSystem/Agent/BigDataJobMonitoring.py:73-115 | every write of a list's polls, including those kept when a later job raises, is for a listed job and justified |
| Monitor.PollJobsComplete | BigDataDIRAC/WorkloadManagementSystem/Agent/BigDataJobMonitoring.py:73-115 | when the list's poll does not raise, a listed job's own writes all appear among the list's writes |
| Monitor.PollJobsKeepsEarlier | BigDataDIRAC/WorkloadManagementSystem/Agent/BigDataJobMonitoring.py:73-115 | the writes made for the jobs before the first raising one stay, in order, at the head of the list's writes |
| Monitor.DoneWriteSurvivesLaterRaise | BigDataDIRAC/WorkloadManagementSystem/Agent/BigDataJobMonitoring.py:73-97 | on a Hadoop 1 endpoint, polling a finished job then a job without a backend row writes the first Done and then raises IndexError, keeping the write |
| Monitor.PendingFor | BigDataDIRAC/WorkloadManagementSystem/Agent/BigDataJobMonitoring.py:61-63 | as written no status yields job ids and the missing vocabulary raises AttributeError; as intended a status yields ids iff it is in the intended vocabulary and its query succeeds, and then they are the query's |
| Monitor.PendingComesFromQueries | BigDataDIRAC/WorkloadManagementSystem/Agent/BigDataJobMonitoring.py:62-64 | each successful pending list is the database's answer for its status |
| Monitor.PollStatusesSound | BigDataDIRAC/WorkloadManagementSystem/Agent/BigDataJobMonitoring.py:69-115 | every write of the status polls, including those kept by a raise, is for a job some successful query listed, and justified |
| Monitor.PollStatusesComplete | BigDataDIRAC/WorkloadManagementSystem/Agent/BigDataJobMonitoring.py:69-115 | when the status polls do not raise, a job some successful status list names has its own writes among them |
| Monitor.PollStatuses | BigDataDIRAC/WorkloadManagementSystem/Agent/BigDataJobMonitoring.py:69-72 | when every status query failed nothing is polled, written or raised |
| Monitor.Cycle | BigDataDIRAC/WorkloadManagementSystem/Agent/BigDataJobMonitoring.py:56-118 | reloading the watch list inside the cycle keeps its endpoints distinct, and nothing is written unless the three status lists were read and the watch list reloaded |
| Monitor.CycleSound | BigDataDIRAC/WorkloadManagementSystem/Agent/BigDataJobMonitoring.py:56-118 | the monitor writes only Done, Submitted or Running, only for jobs a query listed, each justified by the backend; this holds for the writes a raising cycle keeps too |
| Monitor.ApplyWrites | BigDataDIRAC/WorkloadManagementSystem/Agent/BigDataJobMonitoring.py:93-115 | only statuses change, each to a value some write sets, and jobs without writes are untouched |
| Monitor.FailedHadoop2JobStaysSubmitted | BigDataDIRAC/WorkloadManagementSystem/Agent/BigDataJobMonitoring.py:106-115 | a FAILED Hadoop 2 job is written back as Submitted |
| Monitor.FailedStateIsUnknown | BigDataDIRAC/WorkloadManagementSystem/Client/HadoopV2Client.py:39-45 | the FAILED state line reads as Unknown |
| Monitor.Hadoop1AnswerIsStripped | BigDataDIRAC/WorkloadManagementSystem/Agent/BigDataJobMonitoring.py:88-97 | a Hadoop 1 answer with a trailing newline still marks the job Done |
| Monitor.AsWrittenCycleWritesNothing | BigDataDIRAC/WorkloadManagementSystem/Agent/BigDataJobMonitoring.py:62-64 | as written the cycle writes nothing, and with the undefined vocabulary it raises AttributeError before touching the watch-list |
| Monitor.IntendedCyclePollsListedJobs | BigDataDIRAC/WorkloadManagementSystem/Agent/BigDataJobMonitoring.py:56-118 | as intended every job a query lists whose endpoint answers is written |
| Monitor.CycleNeverMarksUnknown | BigDataDIRAC/WorkloadManagementSystem/Agent/BigDataJobMonitoring.py:91-115 | after any cycle, raising or not, no job has become Unknown, and jobs no query listed keep their rows |
| InteractiveMonitor.JobIdOfOutput | BigDataDIRAC/WorkloadManagementSystem/private/InteractiveJobMonitor.py:60 | the only exception reading the id raises is ValueError; its round trip is JobIdOfNamedOutput |
| InteractiveMonitor.JobIdOfNamedOutput | BigDataDIRAC/WorkloadManagementSystem/private/InteractiveJobMonitor.py:60 | an output named `<id>_<name without '/'>` in any directory is read back as that id |
| InteractiveMonitor.HiveOutputNamesJob | BigDataDIRAC/WorkloadManagementSystem/Client/HiveV1.py:78-79 | the Hive driver's output path reads back as its job id |
| InteractiveMonitor.InteractiveOutputNamesJob | BigDataDIRAC/WorkloadManagementSystem/Client/HadoopV2Interactive.py:86-88 | the interactive driver's output path reads back as its job id |
| InteractiveMonitor.NextBreak | BigDataDIRAC/WorkloadManagementSystem/private/InteractiveJobMonitor.py:59 | the first line break at or after a position, or none |
| InteractiveMonitor.FindEnded | BigDataDIRAC/WorkloadManagementSystem/private/InteractiveJobMonitor.py:59 | every match starts with the job mark and ends with a line break |
| InteractiveMonitor.NoBreakNoMatch | BigDataDIRAC/WorkloadManagementSystem/private/InteractiveJobMonitor.py:59 | output without a line break matches nothing |
| InteractiveMonitor.LineScan | BigDataDIRAC/WorkloadManagementSystem/private/InteractiveJobMonitor.py:59 | a line contributes one match iff it mentions a job |
| InteractiveMonitor.EndedCountsLines | BigDataDIRAC/WorkloadManagementSystem/private/InteractiveJobMonitor.py:91 | the number of ended jobs is the number of terminated lines that mention a job |
| InteractiveMonitor.HitsMembership | BigDataDIRAC/WorkloadManagementSystem/private/InteractiveJobMonitor.py:195-200 | the hits are exactly the glob matches of the sandbox patterns |
| InteractiveMonitor.FirstPassMembership | BigDataDIRAC/WorkloadManagementSystem/private/InteractiveJobMonitor.py:195-215 | as intended (the tar command runs), the files are exactly those some hit provides, and the missing are the hits that are untarred directories |
| InteractiveMonitor.SecondPassAdds | BigDataDIRAC/WorkloadManagementSystem/private/InteractiveJobMonitor.py:217-222 | the second pass keeps the first pass's missing list and appends each unresolved sandbox entry once |
| InteractiveMonitor.ResolveMembership | BigDataDIRAC/WorkloadManagementSystem/private/InteractiveJobMonitor.py:189-225 | as intended, a file is resolved iff some glob match provides it; missing iff an untarred directory hit or an unresolved sandbox entry |
| InteractiveMonitor.ResolveSandbox | BigDataDIRAC/WorkloadManagementSystem/private/InteractiveJobMonitor.py:189-225 | as written the resolution raises NameError iff some glob hit is a directory (`systemCall` is not imported); otherwise it yields the intended files and missing lists |
| InteractiveMonitor.ResolveOutputSandbox | BigDataDIRAC/WorkloadManagementSystem/private/InteractiveJobMonitor.py:189-225 | the two loops raise NameError at a directory hit as written, and otherwise compute the resolver's files and missing lists |
| InteractiveMonitor.CollectHits | BigDataDIRAC/WorkloadManagementSystem/private/InteractiveJobMonitor.py:195-215 | the first loop raises NameError iff, as written, some hit is a directory; otherwise it computes the first pass over all hits |
| InteractiveMonitor.VisitHits | BigDataDIRAC/WorkloadManagementSystem/private/InteractiveJobMonitor.py:197-215 | the inner loop raises NameError iff, as written, one of the pattern's hits is a directory; otherwise it extends the first pass by those hits |
| InteractiveMonitor.Visit | BigDataDIRAC/WorkloadManagementSystem/private/InteractiveJobMonitor.py:199-215 | as written a directory hit raises NameError; otherwise one hit adds its files and, if an untarred directory, itself to missing |
| InteractiveMonitor.AddUnresolved | BigDataDIRAC/WorkloadManagementSystem/private/InteractiveJobMonitor.py:217-222 | the second loop computes the second pass |
| InteractiveMonitor.JobsFromStep1 | BigDataDIRAC/WorkloadManagementSystem/private/InteractiveJobMonitor.py:71-74 | empty output keeps the count; output without `=` raises IndexError; a new count is never negative |
| InteractiveMonitor.SplitNoSepIff | BigDataDIRAC/WorkloadManagementSystem/private/InteractiveJobMonitor.py:73 | splitting gives one piece iff the separator is absent |
| InteractiveMonitor.UpdateSandbox | BigDataDIRAC/WorkloadManagementSystem/private/InteractiveJobMonitor.py:141-187 | as written a directory output raises NameError and a missing file AttributeError, both before any effect, and a refused upload naming its file raises NameError; the upload happens iff files resolved and the job id is non-zero; as intended it never raises and the named file is kept as output data |
| InteractiveMonitor.DirectoryOutputAfterDone | BigDataDIRAC/WorkloadManagementSystem/private/InteractiveJobMonitor.py:89-96 | as written a poll that finds every job ended with a directory output writes Done and the backend ids, then raises NameError; as intended the thread goes on |
| InteractiveMonitor.Poll | BigDataDIRAC/WorkloadManagementSystem/private/InteractiveJobMonitor.py:65-96 | Running is written once, when step1 leaves counting; Done only after, exactly when step3's ended lines equal the job count |
| InteractiveMonitor.RunFrom | BigDataDIRAC/WorkloadManagementSystem/private/InteractiveJobMonitor.py:65-96 | the watch stays consistent, and once counting ends it never changes |
| InteractiveMonitor.Monitoring | BigDataDIRAC/WorkloadManagementSystem/private/InteractiveJobMonitor.py:47-96 | an output path without a job id raises ValueError before any effect |
| InteractiveMonitor.CountStatusConcat | BigDataDIRAC/WorkloadManagementSystem/private/InteractiveJobMonitor.py:77-94 | status writes of consecutive polls add up |
| InteractiveMonitor.RunningAtMostOnce | BigDataDIRAC/WorkloadManagementSystem/private/InteractiveJobMonitor.py:67-77 | over any run Running is written at most once, and never after counting ended |
| InteractiveMonitor.CountingNeverDone | BigDataDIRAC/WorkloadManagementSystem/private/InteractiveJobMonitor.py:67-77 | while counting, Done is never written |
| InteractiveMonitor.DoneRepeats | BigDataDIRAC/WorkloadManagementSystem/private/InteractiveJobMonitor.py:93-96 | a finished job is marked Done again on every later poll with the same replies |
| InteractiveMonitor.DoneWhenAllLinesEnded | BigDataDIRAC/WorkloadManagementSystem/private/InteractiveJobMonitor.py:89-96 | Done is written iff step3's output is non-empty and its ended lines equal the job count |
| InteractiveMonitor.Step1StartsJob | BigDataDIRAC/WorkloadManagementSystem/private/InteractiveJobMonitor.py:71-77 | a step1 reply `...=<n>` with n non-zero marks the job Running and records n jobs |

## Left out

- ssh, scp, the wrapper and proxy generation, threads and sleeps: they are I/O; their results are parameters.
- The accounting block (InteractiveJobMonitor.py:98-134): floating-point timing and an accounting call; not modelled.
- Python 2 dictionary iteration order: where the source iterates a dictionary, the caller fixes the order by giving association lists.
- Monitor.Cycle: the three pending-status lists are visited in the order Submitted, Running, Unknown; the source iterates the `pendingJobs` dictionary (BigDataJobMonitoring.py:69), whose order Python 2 does not promise, so the order of a cycle's writes follows that choice.
- HadoopV1Client.jobStatus, HiveV1Client and the HadoopV1Interactive driver are not part of this model; their answers are parameters.
- The TQPriority and CPUTime accumulators in the scheduler's aggregate: dispatch does not read them.
- BigDataDB.py defines none of insertBigDataJob, setHadoopID, setJobStatus, getRunningEnPointDict, getSoftwareJobIDByJobID, getJobIDInfo or `__setState`. The first six are reached through the ledger client, whose server side is not part of this model; the model treats them as the intended map updates and inputs. `__setState` is called on the class itself and is modelled as raising (Ledger.DeclareStalledJobs).
- Director.AsWrittenSubmitOrphansRow: the row it states is written by insertBigDataJob (SoftBigDataDirector.py:119), which BigDataDB.py does not define; the lemma takes that write as intended and states only the TypeError of the following `_submitBigDataJobs` call, not whatever the missing insert itself does.
- Director.Submit: the slot check passes two arguments to S_ERROR (SoftBigDataDirector.py:115); S_ERROR is DIRAC's and not part of this model, so the model returns the formatted first argument as the message.
- Drivers.SubmitV2: as written the submission raises TypeError at HadoopV2.py:74, so lines 78 and 80 never run; the intended branch returns the failure's message where line 78 reads 'Value' of an S_ERROR result, and reads the job id from the output where line 80 indexes it with 'Value' twice.
- The step2 `findall` result (InteractiveJobMonitor.py:79-85) is only logged; the model reads only whether the reply failed.
- The scp and chmod results are only logged; getGlobbedTotalSize and the job attributes read for accounting are left out. As intended the tar command's effect is the parameter `tarred`; as written it raises NameError (see Findings).
- submitPilotsForTaskQueue, __submitPilots, processAllResults and the callback: pilot submission is outside the scheduling core.
- Mail addresses and log messages.
- Text.ShowTriple renders an error tuple without Python's repr escaping of quotes.
- Drivers.V2Descriptor: because the driver table passes the dataset as HadoopV2's Arguments (Calls.HadoopV2ReadsDatasetAsArguments), a dataset of fewer than five words raises IndexError; the model states this and does not correct it.
- The vocabularies chosen for the corrected matcher (software hadoop and twister, versions hdv1 and hdv2, languages none, pig and hive) are a judgement; the source lists only the one-string software literal.

## Findings

| source | as written | input that shows it | evidently intended | confidence | as-written member | corrected member |
|---|---|---|---|---|---|---|
| BigDataDIRAC/WorkloadManagementSystem/Agent/BigDataJobScheduler.py:278-284 | 17 arguments passed to the 14-parameter submitBigDataJobs | any dispatched job | the arguments match the parameters | not executed | Calls.AsWrittenCallsRaise | Director.Submit |
| BigDataDIRAC/Resources/BigData/SoftBigDataDirector.py:125-126 | 7 arguments passed to the 10-parameter _submitBigDataJobs, after the (intended) insert of the row | any admissible request | the job reaches the driver and its id is recorded | not executed | Director.AsWrittenSubmitOrphansRow | Director.SubmittedJobGetsBackendId |
| BigDataDIRAC/Resources/BigData/BigDataDirector.py:64 | HadoopV1 built with 7 arguments; its constructor takes 6 | a hadoop/hdv1/none endpoint | the job is submitted through HadoopV1 | not executed | Drivers.Run | Drivers.SubmitV1 |
| BigDataDIRAC/WorkloadManagementSystem/Client/HadoopV2.py:74 | jobSubmit called with 3 arguments; it takes 2 | any HadoopV2 job whose job lookup succeeded | the job is submitted | not executed | Drivers.SubmitV2 | Drivers.SubmitV2 |
| BigDataDIRAC/Resources/BigData/BigDataDirector.py:65-66 | submitNewBigPilot does not exist on HadoopV1/HadoopV2 | UsePilot "1" on a hadoop/none endpoint | UsePilot does not change the submission | not executed | Director.SelectDriver | Director.PilotIrrelevant |
| BigDataDIRAC/Resources/BigData/BigDataDirector.py:113 | Twister(endpoint) names an unbound variable | a twister endpoint | Twister's first id is returned | not executed | Director.SelectDriver | Director.TwisterId |
| BigDataDIRAC/WorkloadManagementSystem/DB/BigDataDB.py:38 | the software vocabulary is one comma-joined string | Arguments "hadoop hdv1 none 1" | a list of the software names | not executed | Ledger.SoftwareLiteralIsOneString | Matcher.IntendedVocabulariesAdmit |
| BigDataDIRAC/WorkloadManagementSystem/Agent/BigDataJobScheduler.py:345-357 | the version and language vocabularies are not defined | any job with Arguments | defined vocabularies | not executed | Matcher.AsWrittenArgumentsNeverAdmit | Matcher.ArgumentDecision |
| BigDataDIRAC/WorkloadManagementSystem/DB/BigDataDB.py:116-117 | the instance-state vocabulary read by the monitor's status query is not defined | any monitor cycle | the monitor reads the pending jobs | not executed | Monitor.AsWrittenCycleWritesNothing | Monitor.IntendedCyclePollsListedJobs |
| BigDataDIRAC/WorkloadManagementSystem/DB/BigDataDB.py:137-138 | the same undefined vocabulary gates the scheduler's per-endpoint queries | any status query of a scheduler cycle | a vocabulary holding the watched states | not executed | Scheduler.AsWrittenCycleSubmitsNothing | Ledger.IntendedStatusQueries |
| BigDataDIRAC/WorkloadManagementSystem/DB/BigDataDB.py:129 | `['Value'][0][0]` applied to the row list | a successful query | the rows are returned | not executed | Ledger.AsWrittenStatusQueriesRaise | Ledger.JobsByStatusIntended |
| BigDataDIRAC/WorkloadManagementSystem/DB/BigDataDB.py:177 | the state 'Stalled' is iterated per character | a Running job idle for a day | Running jobs idle too long are selected | not executed | Ledger.AsWrittenStaleSelectsNothing | Ledger.IntendedStaleSelection |
| BigDataDIRAC/Resources/BigData/SoftBigDataDirector.py:82-87 | the `continue` for a missing option is inside the copy path, which reads the option anyway | a section without Port | the section is skipped | not executed | Registry.AsWrittenMissingOptionRaises | Registry.IntendedMissingOptionSkips |
| BigDataDIRAC/WorkloadManagementSystem/Agent/BigDataJobScheduler.py:197-198 | UsePilot and IsInteractive are read but never copied into the registry | any admitted job | the aggregate carries the endpoint's options | not executed | Scheduler.AdmissionRecorded | Registry.CopiedPilotOptions |
| BigDataDIRAC/WorkloadManagementSystem/Agent/BigDataJobScheduler.py:475-479 | pools are popped from the dict being iterated: the first unused pool goes, then the iteration raises RuntimeError | pools Default and P, no director using P | unused pools are removed and the cycle goes on | not executed | SubmitPools.UnusedPoolRaisesOnce | SubmitPools.DropPools |
| BigDataDIRAC/WorkloadManagementSystem/Agent/BigDataJobScheduler.py:281 | the dataset sent is the one from the last matcher call | two admissions with different datasets | each job carries its own dataset | not executed | Scheduler.Cycle | Scheduler.Cycle |
| BigDataDIRAC/WorkloadManagementSystem/Client/HadoopV1.py:61-62 | S_ERROR(returned['Value']) on a failed result | a failed submission | the failure message is returned | not executed | Drivers.SubmitV1 | Drivers.SubmitV1 |
| BigDataDIRAC/WorkloadManagementSystem/Client/HadoopV2Interactive.py:76-78 | S_ERROR(jobInfo['Value']) on a failed lookup | a failed job lookup | the failure message is returned | not executed | Drivers.SubmitInteractive | Drivers.SubmitInteractive |
| BigDataDIRAC/WorkloadManagementSystem/Client/HadoopV2InteractiveClient.py:165-168 | the id pattern runs across the line break | two submission log lines | the id ends at the line | not executed | Clients.AsWrittenIdRunsIntoNextLine | Clients.IntendedIdIsFirstLine |
| BigDataDIRAC/WorkloadManagementSystem/private/InteractiveJobMonitor.py:160-161 | jobReport is not an attribute of the thread | an output with a missing file | the missing files are reported | not executed | InteractiveMonitor.UpdateSandbox | InteractiveMonitor.UpdateSandbox |
| BigDataDIRAC/WorkloadManagementSystem/private/InteractiveJobMonitor.py:174 | outputData is not defined | an output whose files all resolve, after the upload fails | the failure is reported | not executed | InteractiveMonitor.UpdateSandbox | InteractiveMonitor.UpdateSandbox |
| BigDataDIRAC/WorkloadManagementSystem/DB/BigDataDB.py:188 | `self.__setState` is not defined by the class | a row selected as stale | the job is marked Stalled | not executed | Ledger.AsWrittenSweep | Ledger.IntendedSweep |
| BigDataDIRAC/WorkloadManagementSystem/private/InteractiveJobMonitor.py:205 | `systemCall` is not imported | an output that is a directory, once every job ended | the directory is tarred and uploaded | not executed | InteractiveMonitor.DirectoryOutputAfterDone | InteractiveMonitor.ResolveMembership |
