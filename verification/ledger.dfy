/** The job ledger (the BigDataDB class): its vocabularies and table
    descriptions, the type-tuple lookup, the set of tables to create, the
    stale-job selection and declaration, the status gate in front of the
    status queries, and the row updates the director and the monitor make.
    The SQL itself is not modelled: query results are inputs.
 */
module Ledger {
  import opened Base

  // ---------------------------------------------------------------------
  // Vocabularies and constants
  // ---------------------------------------------------------------------

  const ValidJobStates: seq<string> :=
    ["Submitted", "Mapping", "Reduccing", "Queue", "Done", "Stalled", "Error"]

  /** The software vocabulary exactly as the class spells it: a list holding
      ONE string in which the three names are separated by commas. */
  const ValidSoftware: seq<string> := ["hdv1,hdv2,twister"]

  /** Seconds of silence after which a job is stale (30 minutes). */
  const StallingInterval: nat := 30 * 60

  /** The class attributes the scheduler and the status queries read. An
      attribute the class never defines is None: reading it raises
      AttributeError. */
  datatype Vocabularies = Vocabularies(
    software: Option<seq<string>>,           // validSoftware
    softwareVersions: Option<seq<string>>,   // validSoftwareVersion
    highLevelLanguages: Option<seq<string>>, // validHighLevelLang
    instanceStates: Option<seq<string>>)     // validInstanceStates

  /** What the class defines: only validSoftware, with its one-string literal. */
  const AsWrittenVocabularies: Vocabularies :=
    Vocabularies(Some(ValidSoftware), None, None, None)

  /** The software literal is one string: none of the names it lists is a
      member on its own, so `"hdv1" in validSoftware` is false. */
  lemma SoftwareLiteralIsOneString()
    ensures |ValidSoftware| == 1
    ensures "hdv1" !in ValidSoftware && "hdv2" !in ValidSoftware
    ensures "twister" !in ValidSoftware && "hadoop" !in ValidSoftware
    ensures forall s :: s in ValidSoftware <==> s == "hdv1,hdv2,twister"
  {
  }

  /** Three of the four vocabularies the code reads are undefined. */
  lemma VocabulariesUndefined()
    ensures AsWrittenVocabularies.softwareVersions.None?
    ensures AsWrittenVocabularies.highLevelLanguages.None?
    ensures AsWrittenVocabularies.instanceStates.None?
  {
  }

  // ---------------------------------------------------------------------
  // Table descriptions and the type tuple
  // ---------------------------------------------------------------------

  datatype TableDesc = TableDesc(fields: set<string>, primaryKey: string)

  const TablesDesc: map<string, TableDesc> := map[
    "bd_Jobs" := TableDesc({"BdJobID", "Name", "NameNode", "SiteName", "Status",
                            "LastUpdate", "PublicIP", "ErrorMessage", "BdSoftware",
                            "BdInputData", "BdOutputData"}, "BdJobID"),
    "bd_Software" := TableDesc({"BdSoftID", "Name", "Version", "HLevelLang"}, "BdSoftID"),
    "bd_HLevelLang" := TableDesc({"BdHLevelID", "Name", "Version"}, "BdHLevelID"),
    "temp_DataSetCatalog" := TableDesc({"BdLFNID", "LFN", "SiteName"}, "BdLFNID")
  ]

  datatype TypeTuple = TypeTuple(tableName: string, validStates: seq<string>, idName: string)

  /** `__getTypeTuple`: the table, state vocabulary and key column of an
      element kind. A known kind names a described table and that table's
      primary key; any other kind gets the empty defaults. */
  function GetTypeTuple(element: string): (t: TypeTuple)
    ensures t.tableName != "" <==> element == "job" || element == "software"
    ensures t.tableName != "" ==>
      t.tableName in TablesDesc && TablesDesc[t.tableName].primaryKey == t.idName
      && t.idName in TablesDesc[t.tableName].fields
    ensures element == "job" ==> t.validStates == ValidJobStates
    ensures element == "software" ==> t.validStates == ValidSoftware
    ensures t.tableName == "" ==> t == TypeTuple("", [], "")
  {
    if element == "job" then TypeTuple("bd_Jobs", ValidJobStates, "BdJobID")
    else if element == "software" then TypeTuple("bd_Software", ValidSoftware, "BdSoftID")
    else TypeTuple("", [], "")
  }

  /** The tables `__initializeDB` asks to create: the described tables the
      database does not list yet. */
  function TablesToCreate(described: map<string, TableDesc>, inDB: set<string>)
    : (r: map<string, TableDesc>)
    ensures r.Keys !! inDB
    ensures described.Keys <= r.Keys + inDB
    ensures forall t :: t in r ==> t in described && r[t] == described[t]
  {
    map t | t in described && t !in inDB :: described[t]
  }

  /** `__initializeDB` up to the create call: the listing error is returned
      unchanged, otherwise the tables to create from the first column of
      `show tables`. */
  function InitializeDB(showTables: Result<seq<string>>): (r: Result<map<string, TableDesc>>)
    ensures showTables.Err? ==> r == Err(showTables.message)
    ensures showTables.Ok? ==> r.Ok?
    ensures showTables.Ok? ==> r.value.Keys == TablesDesc.Keys - (set t | t in showTables.value)
  {
    match showTables
    case Err(m) => Err(m)
    case Ok(names) => Ok(TablesToCreate(TablesDesc, set t | t in names))
  }

  /** Once the missing tables exist, a second initialization creates nothing. */
  lemma InitializeIdempotent(described: map<string, TableDesc>, inDB: set<string>)
    ensures TablesToCreate(described, inDB + TablesToCreate(described, inDB).Keys) == map[]
  {
    var created := TablesToCreate(described, inDB);
    var again := TablesToCreate(described, inDB + created.Keys);
    assert forall t :: t in described && t !in inDB ==> t in created.Keys;
  }

  // ---------------------------------------------------------------------
  // Stale jobs
  // ---------------------------------------------------------------------

  /** One row of bd_Jobs as the stale query sees it. */
  datatype JobRow = JobRow(id: nat, status: string, idleSeconds: int)

  predicate IsStale(r: JobRow, secondsIdle: int, states: seq<string>) {
    r.idleSeconds > secondsIdle && r.status in states
  }

  /** `__getOldJobIDs`: the ids of the rows idle strictly longer than
      `secondsIdle` whose Status is one of the quoted values built by
      iterating `states`, in row order. */
  function OldJobIds(rows: seq<JobRow>, secondsIdle: int, states: seq<string>): (ids: seq<nat>)
    ensures |ids| <= |rows|
    ensures forall id :: id in ids ==>
      exists r :: r in rows && r.id == id && IsStale(r, secondsIdle, states)
    ensures forall r :: r in rows && IsStale(r, secondsIdle, states) ==> r.id in ids
  {
    if |rows| == 0 then []
    else
      var rest := OldJobIds(rows[1..], secondsIdle, states);
      assert forall r :: r in rows[1..] ==> r in rows;
      if IsStale(rows[0], secondsIdle, states) then [rows[0].id] + rest else rest
  }

  /** Iterating a Python string yields its characters, one string each. */
  function Chars(s: string): (cs: seq<string>)
    ensures |cs| == |s|
    ensures forall i :: 0 <= i < |s| ==> cs[i] == [s[i]]
  {
    if |s| == 0 then [] else [[s[0]]] + Chars(s[1..])
  }

  /** The states `declareStalledJobs` passes: the bare string 'Stalled',
      which the join iterates character by character. */
  function AsWrittenStaleStates(): seq<string> {
    Chars("Stalled")
  }

  /** As written, only rows whose Status is a single letter of "Stalled" can
      be selected, so a table without one-letter statuses (every real job
      state has more) yields no stale job at all. */
  lemma {:induction false} AsWrittenStaleSelectsNothing(rows: seq<JobRow>)
    requires forall r :: r in rows ==> |r.status| != 1
    ensures OldJobIds(rows, StallingInterval, AsWrittenStaleStates()) == []
  {
    if |rows| > 0 {
      var cs := AsWrittenStaleStates();
      assert forall i :: 0 <= i < |cs| ==> |cs[i]| == 1;
      assert rows[0] in rows;
      assert rows[0].status !in cs;
      assert forall r :: r in rows[1..] ==> r in rows;
      AsWrittenStaleSelectsNothing(rows[1..]);
    }
  }

  /** The selection `declareStalledJobs` evidently intends: its docstring
      asks for the Running jobs whose last heartbeat is too old. */
  function IntendedStaleStates(): seq<string> {
    ["Running"]
  }

  /** With the intended states a row is selected exactly when it is Running
      and idle for more than 1800 seconds. */
  lemma IntendedStaleSelection(rows: seq<JobRow>, r: JobRow)
    requires r in rows
    ensures r.id in OldJobIds(rows, StallingInterval, IntendedStaleStates())
      <== r.status == "Running" && r.idleSeconds > 1800
    ensures (forall q :: q in rows && q.id == r.id ==> q == r) ==>
      (r.id in OldJobIds(rows, StallingInterval, IntendedStaleStates()) ==>
        (r.status == "Running" && r.idleSeconds > 1800))
  {
  }

  /** `declareStalledJobs`: the old-job query error is returned unchanged and
      no old job gives an empty list. As written the first old job raises
      AttributeError: the state change calls `self.__setState`, which the
      class does not define. As intended the result lists the ids whose
      state change to Stalled succeeded (`stalledOk`), in order; a failed
      change is skipped. */
  function DeclareStalledJobs(oldJobs: Result<seq<nat>>, stalledOk: nat -> bool, mode: Mode)
    : (r: Py<Result<seq<nat>>>)
    ensures oldJobs.Err? ==> r == Returned(oldJobs)
    ensures oldJobs.Ok? && |oldJobs.value| == 0 ==> r == Returned(Ok([]))
    ensures mode == AsWritten ==> (r.Raised? <==> oldJobs.Ok? && |oldJobs.value| > 0)
    ensures r.Raised? ==> r.exception == AttributeError
    ensures mode == Intended ==> r.Returned?
    ensures oldJobs.Ok? && r.Returned? ==> r.value.Ok? && IsSubsequence(r.value.value, oldJobs.value)
    ensures oldJobs.Ok? && r.Returned? ==>
      (forall id :: id in r.value.value <==> id in oldJobs.value && stalledOk(id))
  {
    match oldJobs
    case Err(m) => Returned(Err(m))
    case Ok(ids) =>
      if |ids| == 0 then Returned(Ok([]))
      else if mode == AsWritten then Raised(AttributeError)
      else Returned(Ok(Filter(ids, stalledOk)))
  }

  /** The sweep as intended: a job is declared Stalled exactly when it is
      Running, idle for more than 1800 seconds and its state change
      succeeds (for rows with distinct ids). */
  lemma IntendedSweep(rows: seq<JobRow>, stalledOk: nat -> bool, r: JobRow)
    requires r in rows
    ensures var declared := DeclareStalledJobs(Ok(OldJobIds(rows, StallingInterval, IntendedStaleStates())), stalledOk, Intended);
      declared.Returned? && declared.value.Ok?
      && (r.status == "Running" && r.idleSeconds > 1800 && stalledOk(r.id) ==> r.id in declared.value.value)
    ensures var declared := DeclareStalledJobs(Ok(OldJobIds(rows, StallingInterval, IntendedStaleStates())), stalledOk, Intended);
      (forall q :: q in rows && q.id == r.id ==> q == r) && r.id in declared.value.value ==>
        r.status == "Running" && r.idleSeconds > 1800 && stalledOk(r.id)
  {
    IntendedStaleSelection(rows, r);
  }

  /** The sweep as written: with no one-letter status nothing is selected,
      so it returns an empty list; a Running job idle for long is never
      declared. A row whose status is one letter of "Stalled" and that is
      idle long enough is selected, and the sweep raises. */
  lemma AsWrittenSweep(rows: seq<JobRow>, stalledOk: nat -> bool)
    ensures (forall r :: r in rows ==> |r.status| != 1) ==>
      DeclareStalledJobs(Ok(OldJobIds(rows, StallingInterval, AsWrittenStaleStates())), stalledOk, AsWritten)
        == Returned(Ok([]))
    ensures (exists r :: r in rows && r.status == "S" && r.idleSeconds > StallingInterval) ==>
      DeclareStalledJobs(Ok(OldJobIds(rows, StallingInterval, AsWrittenStaleStates())), stalledOk, AsWritten)
        == Raised(AttributeError)
  {
    if forall r :: r in rows ==> |r.status| != 1 {
      AsWrittenStaleSelectsNothing(rows);
    }
    if exists r :: r in rows && r.status == "S" && r.idleSeconds > StallingInterval {
      var r :| r in rows && r.status == "S" && r.idleSeconds > StallingInterval;
      assert AsWrittenStaleStates()[0] == "S";
      assert IsStale(r, StallingInterval, AsWrittenStaleStates());
    }
  }

  // ---------------------------------------------------------------------
  // The status gate of the status queries
  // ---------------------------------------------------------------------

  /** `getBigDataJobsByStatus` / `getBigDataJobsByStatusAndEndpoint`:
      reading an undefined vocabulary raises; a status outside it is
      rejected without querying; a failed query is returned; a successful
      one raises, because the row list it yields is indexed with 'Value'. */
  function JobsByStatus<T>(instanceStates: Option<seq<string>>, status: string, query: Result<T>)
    : (r: Py<Result<T>>)
    ensures instanceStates.None? ==> r == Raised(AttributeError)
    ensures instanceStates.Some? && status !in instanceStates.value ==>
      r.Returned? && r.value.Err?
    ensures instanceStates.Some? && status in instanceStates.value && query.Err? ==>
      r == Returned(query)
    ensures !(r.Returned? && r.value.Ok?)
  {
    match instanceStates
    case None => Raised(AttributeError)
    case Some(states) =>
      if status !in states then Returned(Err("Status " + status + " is not known"))
      else if query.Err? then Returned(query)
      else Raised(TypeError)
  }

  /** The status queries as evidently intended: past the status check, the
      query's rows come back. */
  function JobsByStatusIntended<T>(instanceStates: seq<string>, status: string, query: Result<T>)
    : (r: Result<T>)
    ensures status in instanceStates ==> r == query
    ensures status !in instanceStates ==> r.Err?
  {
    if status !in instanceStates then Err("Status " + status + " is not known") else query
  }

  /** A rejected status is decided before the query: its outcome is the same
      whatever the query would have returned. */
  lemma RejectedBeforeQuery<T>(states: seq<string>, status: string, q1: Result<T>, q2: Result<T>)
    requires status !in states
    ensures JobsByStatus(Some(states), status, q1) == JobsByStatus(Some(states), status, q2)
    ensures JobsByStatusIntended(states, status, q1) == JobsByStatusIntended(states, status, q2)
  {
  }

  /** As written a status query never yields rows: with the ledger's own
      vocabularies it raises for every status. */
  lemma AsWrittenStatusQueriesRaise<T>(status: string, query: Result<T>)
    ensures JobsByStatus(AsWrittenVocabularies.instanceStates, status, query) == Raised(AttributeError)
    ensures query.Ok? ==> forall states :: status in states ==>
      JobsByStatus(Some(states), status, query) == Raised(TypeError)
  {
  }

  /** The job-state list lacks two of the statuses the agents ask for. */
  lemma JobStatesLackRunningAndUnknown()
    ensures "Running" !in ValidJobStates && "Unknown" !in ValidJobStates
    ensures "Submitted" in ValidJobStates
  {
  }

  /** The instance-state vocabulary the agents evidently rely on: the job
      states plus the two statuses the monitor and the scheduler query. */
  const IntendedInstanceStates: seq<string> := ValidJobStates + ["Running", "Unknown"]

  /** With the intended vocabulary every status the agents query reaches the
      query and its rows come back, and a status outside it still never does. */
  lemma IntendedStatusQueries<T>(query: Result<T>)
    ensures forall s :: s in ["Submitted", "Running", "Unknown"] ==>
      JobsByStatusIntended(IntendedInstanceStates, s, query) == query
    ensures JobsByStatusIntended(IntendedInstanceStates, "Finished", query).Err?
  {
  }

  // ---------------------------------------------------------------------
  // Ledger rows
  // ---------------------------------------------------------------------

  /** One bd_Jobs row as the director inserts it and the monitor updates it. */
  datatype LedgerEntry = LedgerEntry(
    name: string, lastUpdate: string, nameNode: string, siteName: string,
    publicIP: string, errorMessage: string, inputData: string, outputData: string,
    software: string, softwareVersion: string, hllName: string, hllVersion: string,
    status: string, backendId: string)

  /** The ledger, keyed by job id: one row per job id. */
  type Jobs = map<nat, LedgerEntry>

  /** `setHadoopID`: only the backend id of that row changes. */
  function SetBackendId(jobs: Jobs, id: nat, backendId: string): (r: Jobs)
    ensures r.Keys == jobs.Keys
    ensures id in jobs ==> r[id] == jobs[id].(backendId := backendId)
    ensures forall j :: j in jobs && j != id ==> r[j] == jobs[j]
  {
    if id in jobs then jobs[id := jobs[id].(backendId := backendId)] else jobs
  }

  /** `setJobStatus`: only the status of that row changes. */
  function SetJobStatus(jobs: Jobs, id: nat, status: string): (r: Jobs)
    ensures r.Keys == jobs.Keys
    ensures id in jobs ==> r[id] == jobs[id].(status := status)
    ensures forall j :: j in jobs && j != id ==> r[j] == jobs[j]
  {
    if id in jobs then jobs[id := jobs[id].(status := status)] else jobs
  }
}
