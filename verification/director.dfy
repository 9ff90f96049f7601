/** The director's submit path: `submitBigDataJobs` (capacity and NameNode
    checks, the ledger row, the remote submission) and the driver table of
    `_submitBigDataJobs`.

    Each call's arguments are a record. As written, the submit sequence
    calls the driver table with seven of its ten arguments, which raises
    TypeError after the ledger row is written; `Mode.AsWritten` follows
    that, `Mode.Intended` passes the whole record on.
 */
module Director {
  import opened Base
  import opened Text
  import opened Assoc
  import opened Ledger
  import opened Registry
  import Calls

  /** The arguments of `submitBigDataJobs`: the fourteen the method
      declares, then the dataset, UsePilot and IsInteractive that the
      scheduler also passes. */
  datatype SubmitRequest = SubmitRequest(
    endpoint: string, allowed: int, siteName: string, nameNode: string,
    software: string, version: string, hllName: string, hllVersion: string,
    publicIP: string, port: int, jobId: nat, endpointName: string, jobName: string,
    user: string, dataset: string, usePilot: Option<string>, isInteractive: Option<string>)

  /** The arguments of `_submitBigDataJobs`. */
  datatype BackendRequest = BackendRequest(
    nameNode: string, port: int, jobId: nat, publicIP: string, endpointName: string,
    user: string, jobName: string, dataset: string,
    usePilot: Option<string>, isInteractive: Option<string>)

  function BackendRequestOf(req: SubmitRequest): BackendRequest {
    BackendRequest(req.nameNode, req.port, req.jobId, req.publicIP, req.endpointName,
                   req.user, req.jobName, req.dataset, req.usePilot, req.isInteractive)
  }

  /** The ledger row written before the remote submission. */
  function NewEntry(req: SubmitRequest, now: string): LedgerEntry {
    LedgerEntry(req.jobName, now, req.nameNode, req.siteName, req.publicIP, "", "", "",
                req.software, req.version, req.hllName, req.hllVersion, "Submitted", "")
  }

  /** The request passes both checks: a free slot, and a NameNode that is
      part of the registered endpoint's NameNode. */
  predicate Admissible(reg: Endpoints, req: SubmitRequest) {
    req.allowed > 0 && req.endpoint in Keys(reg)
    && Contains(Get(reg, req.endpoint).value.nameNode, req.nameNode)
  }

  /** `submitBigDataJobs`: returns the ledger afterwards and the method's
      outcome. `backend` is `_submitBigDataJobs`. */
  function Submit(jobs: Jobs, reg: Endpoints, req: SubmitRequest, now: string,
                  backend: BackendRequest -> Py<Result<string>>, mode: Mode)
    : (out: (Jobs, Py<Result<string>>))
    // the checks come first and write nothing
    ensures !Admissible(reg, req) ==> out.0 == jobs
    ensures req.allowed <= 0 ==>
      out.1 == Returned(Err("Number of slots reached for " + req.siteName + " in the NameNode "))
    ensures req.allowed > 0 && req.endpoint !in Keys(reg) ==> out.1 == Raised(KeyError)
    ensures req.allowed > 0 && req.endpoint in Keys(reg) && !Admissible(reg, req) ==>
      out.1 == Returned(Err("Unknown NameNode: " + req.nameNode))
    // only the job's own row can change
    ensures out.0.Keys <= jobs.Keys + {req.jobId}
    ensures forall j :: j in jobs && j != req.jobId ==> j in out.0 && out.0[j] == jobs[j]
    // past the checks the row is there, Submitted, before anything can fail
    ensures Admissible(reg, req) ==>
      req.jobId in out.0 && out.0[req.jobId] == NewEntry(req, now).(backendId := out.0[req.jobId].backendId)
    // the backend id is recorded exactly when the submission returned one
    ensures Admissible(reg, req) && mode == Intended ==>
      match backend(BackendRequestOf(req))
      case Returned(Ok(id)) => out.0[req.jobId].backendId == id && out.1 == Returned(Ok("OK"))
      case other => out.0[req.jobId].backendId == "" && out.1 == other
    ensures Admissible(reg, req) && mode == AsWritten ==>
      out.0[req.jobId].backendId == "" && out.1 == Raised(TypeError)
  {
    if req.allowed <= 0 then
      (jobs, Returned(Err("Number of slots reached for " + req.siteName + " in the NameNode ")))
    else if req.endpoint !in Keys(reg) then (jobs, Raised(KeyError))
    else if !Contains(Get(reg, req.endpoint).value.nameNode, req.nameNode) then
      (jobs, Returned(Err("Unknown NameNode: " + req.nameNode)))
    else
      var inserted := jobs[req.jobId := NewEntry(req, now)];
      var bound := if mode == AsWritten then Calls.Call(Calls.SubmitToDriverTable) else Returned([]);
      if bound.Raised? then (inserted, Raised(bound.exception))
      else
        match backend(BackendRequestOf(req))
        case Returned(Ok(id)) => (SetBackendId(inserted, req.jobId, id), Returned(Ok("OK")))
        case other => (inserted, other)
  }

  /** As written, every admissible submission leaves a Submitted row with
      no backend id, whatever the backend would have answered. */
  lemma AsWrittenSubmitOrphansRow(jobs: Jobs, reg: Endpoints, req: SubmitRequest, now: string,
                                  backend: BackendRequest -> Py<Result<string>>)
    requires Admissible(reg, req)
    ensures var out := Submit(jobs, reg, req, now, backend, AsWritten);
      out.0 == jobs[req.jobId := NewEntry(req, now)] && out.1 == Raised(TypeError)
  {
    Calls.AsWrittenCallsRaise();
  }

  /** The configuration the driver table reads for an endpoint. */
  datatype DriverConfig = DriverConfig(software: string, version: string, hllName: string, hllVersion: string)

  const EndPointsPath := "/Resources/BigDataEndPoints"

  /** The two option lookups of `_submitBigDataJobs`: a failed lookup is
      returned unchanged, an absent option raises KeyError. */
  function ReadDriverConfig(options: string -> Result<map<string, string>>, endpointName: string)
    : (r: Py<Result<DriverConfig>>)
    ensures var section := EndPointsPath + "/" + endpointName;
      var ep := options(section);
      var hll := options(section + "/HighLevelLanguage");
      (ep.Err? ==> r == Returned(Err(ep.message)))
      && (r == Returned(Err(hll.message)) <== ep.Ok? && "BigDataSoftware" in ep.value
            && "BigDataSoftwareVersion" in ep.value && hll.Err?)
      && (r.Returned? && r.value.Ok? <==>
            ep.Ok? && "BigDataSoftware" in ep.value && "BigDataSoftwareVersion" in ep.value
            && hll.Ok? && "HLLName" in hll.value && "HLLVersion" in hll.value)
      && (r.Returned? && r.value.Ok? ==>
            r.value.value == DriverConfig(ep.value["BigDataSoftware"], ep.value["BigDataSoftwareVersion"],
                                          hll.value["HLLName"], hll.value["HLLVersion"]))
    ensures r.Raised? ==> r.exception == KeyError
  {
    var section := EndPointsPath + "/" + endpointName;
    match options(section)
    case Err(m) => Returned(Err(m))
    case Ok(ep) =>
      var software :- Lookup(ep, "BigDataSoftware");
      var version :- Lookup(ep, "BigDataSoftwareVersion");
      match options(section + "/HighLevelLanguage")
      case Err(m) => Returned(Err(m))
      case Ok(hll) =>
        var hllName :- Lookup(hll, "HLLName");
        var hllVersion :- Lookup(hll, "HLLVersion");
        Returned(Ok(DriverConfig(software, version, hllName, hllVersion)))
  }

  /** The backend classes the table can pick. */
  datatype Driver = HadoopV1 | HadoopV1Interactive | HadoopV2 | HadoopV2Interactive | HiveV1 | Twister

  predicate IsHadoop(c: DriverConfig) {
    c.software == "hadoop" && (c.version == "hdv1" || c.version == "hdv2")
  }

  /** The driver table; None is the unknown-driver error. As written, the
      hdv1 constructor is called with one argument too many, HadoopV2 has
      no `submitNewBigPilot`, and the Twister branch reads an unbound name. */
  function SelectDriver(c: DriverConfig, usePilot: Option<string>, isInteractive: Option<string>,
                        mode: Mode): (r: Py<Option<Driver>>)
    ensures mode == Intended ==> r.Returned?
    ensures r == Returned(None) <==>
      !(IsHadoop(c) && (c.hllName == "none" || c.hllName == "hive")) && c.software != "twister"
    ensures r == Returned(Some(HiveV1)) <==> IsHadoop(c) && c.hllName == "hive"
    ensures r == Returned(Some(Twister)) <==> c.software == "twister" && mode == Intended
    ensures r.Returned? && r.value.Some? && r.value.value in {HadoopV1, HadoopV1Interactive} ==>
      IsHadoop(c) && c.hllName == "none" && c.version == "hdv1"
    ensures r.Returned? && r.value.Some? && r.value.value in {HadoopV2, HadoopV2Interactive} ==>
      IsHadoop(c) && c.hllName == "none" && c.version == "hdv2"
    ensures r.Returned? && r.value.Some? && r.value.value in {HadoopV1Interactive, HadoopV2Interactive} <==>
      r.Returned? && IsHadoop(c) && c.hllName == "none" && isInteractive == Some("1")
  {
    if IsHadoop(c) && c.hllName == "none" then
      if mode == AsWritten && c.version == "hdv1" then Raised(TypeError)
      else if mode == AsWritten && usePilot == Some("1") then Raised(AttributeError)
      else if isInteractive == Some("1") then
        Returned(Some(if c.version == "hdv1" then HadoopV1Interactive else HadoopV2Interactive))
      else
        Returned(Some(if c.version == "hdv1" then HadoopV1 else HadoopV2))
    else if IsHadoop(c) && c.hllName == "hive" then Returned(Some(HiveV1))
    else if c.software == "twister" then
      if mode == Intended then Returned(Some(Twister)) else Raised(NameError)
    else Returned(None)
  }

  /** The pilot submission's result is overwritten, so the driver depends
      on IsInteractive only. */
  lemma PilotIrrelevant(c: DriverConfig, p1: Option<string>, p2: Option<string>, i: Option<string>)
    ensures SelectDriver(c, p1, i, Intended) == SelectDriver(c, p2, i, Intended)
  {
  }

  /** Outside hadoop/hdv1/none, hadoop/hdv2/none with UsePilot '1', and
      twister, the table as written picks what the intended one picks. */
  lemma AsWrittenAgreesElsewhere(c: DriverConfig, p: Option<string>, i: Option<string>)
    requires !(IsHadoop(c) && c.hllName == "none" && (c.version == "hdv1" || p == Some("1")))
    requires c.software != "twister"
    ensures SelectDriver(c, p, i, AsWritten) == SelectDriver(c, p, i, Intended)
  {
  }

  /** The pig branch only logs: hadoop with HLL "pig" is an unknown driver. */
  lemma PigIsUnknown(version: string, hllVersion: string, p: Option<string>, i: Option<string>, mode: Mode)
    ensures SelectDriver(DriverConfig("hadoop", version, "pig", hllVersion), p, i, mode) == Returned(None)
  {
  }

  /** `_submitBigDataJobs`: configuration, driver choice, then the driver's
      submission. `run` submits through a Hadoop or Hive driver; `twister`
      is the Twister driver, whose value is a list. */
  function SubmitThroughTable(req: BackendRequest, options: string -> Result<map<string, string>>,
                              run: (Driver, BackendRequest) -> Py<Result<string>>,
                              twister: BackendRequest -> Py<Result<seq<string>>>, mode: Mode)
    : (r: Py<Result<string>>)
    ensures var c := ReadDriverConfig(options, req.endpointName);
      (c.Raised? ==> r == Raised(c.exception))
      && (c.Returned? && c.value.Err? ==> r == Returned(Err(c.value.message)))
      && (c.Returned? && c.value.Ok? ==>
            var choice := SelectDriver(c.value.value, req.usePilot, req.isInteractive, mode);
            (choice.Raised? ==> r == Raised(choice.exception))
            && (choice == Returned(None) ==>
                  r == Returned(Err("Unknown DIRAC BigData driver " + c.value.value.software)))
            && (choice.Returned? && choice.value.Some? && choice.value.value != Twister ==>
                  r == run(choice.value.value, req))
            && (choice == Returned(Some(Twister)) && twister(req).Returned? && twister(req).value.Ok? ==>
                  if |twister(req).value.value| == 0 then r == Raised(IndexError)
                  else r == Returned(Ok(twister(req).value.value[0]))))
  {
    var config :- ReadDriverConfig(options, req.endpointName);
    match config
    case Err(m) => Returned(Err(m))
    case Ok(c) =>
      var choice :- SelectDriver(c, req.usePilot, req.isInteractive, mode);
      match choice
      case None => Returned(Err("Unknown DIRAC BigData driver " + c.software))
      case Some(Twister) =>
        var result :- twister(req);
        TwisterId(result)
      case Some(d) => run(d, req)
  }

  /** `result['Value'][0]` of the Twister driver's result, wrapped again. */
  function TwisterId(result: Result<seq<string>>): (r: Py<Result<string>>)
    ensures result.Err? ==> r == Returned(Err(result.message))
    ensures result.Ok? && |result.value| == 0 ==> r == Raised(IndexError)
    ensures result.Ok? && |result.value| > 0 ==> r == Returned(Ok(result.value[0]))
  {
    match result
    case Err(m) => Returned(Err(m))
    case Ok(ids) => if |ids| == 0 then Raised(IndexError) else Returned(Ok(ids[0]))
  }

  /** The corrected path end to end: a submission to a registered endpoint
      with a free slot, whose configuration names a Hadoop or Hive driver
      that returns an id, leaves the job in the ledger as Submitted with
      that backend id. */
  lemma SubmittedJobGetsBackendId(jobs: Jobs, reg: Endpoints, req: SubmitRequest, now: string,
                                  options: string -> Result<map<string, string>>,
                                  run: (Driver, BackendRequest) -> Py<Result<string>>,
                                  twister: BackendRequest -> Py<Result<seq<string>>>,
                                  c: DriverConfig, d: Driver, id: string)
    requires Admissible(reg, req)
    requires ReadDriverConfig(options, req.endpointName) == Returned(Ok(c))
    requires SelectDriver(c, req.usePilot, req.isInteractive, Intended) == Returned(Some(d)) && d != Twister
    requires run(d, BackendRequestOf(req)) == Returned(Ok(id))
    ensures var backend := (b: BackendRequest) => SubmitThroughTable(b, options, run, twister, Intended);
      var out := Submit(jobs, reg, req, now, backend, Intended);
      out.1 == Returned(Ok("OK"))
      && out.0[req.jobId] == NewEntry(req, now).(backendId := id)
  {
    var backend := (b: BackendRequest) => SubmitThroughTable(b, options, run, twister, Intended);
    var b := BackendRequestOf(req);
    assert b.endpointName == req.endpointName;
    assert backend(b) == Returned(Ok(id));
  }
}
