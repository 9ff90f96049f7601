/** The monitoring agent (BigDataJobMonitoring): its watch list of
    endpoints (`__getMonitoringPools`, `configureFromSection`) and one
    `execute` cycle, which asks the backend for the state of every job the
    ledger holds as Submitted, Running or Unknown and turns the answers
    into ledger status writes.

    The ledger's queries, the endpoint lookup, the configuration and the
    remote calls are inputs. A cycle returns the writes it makes, in
    order; `ApplyWrites` performs them on the ledger.
 */
module Monitor {
  import opened Base
  import opened Text
  import opened Assoc
  import Registry
  import Ledger
  import Clients

  // ---------------------------------------------------------------------
  // The watch list
  // ---------------------------------------------------------------------

  /** A watched endpoint: a dictionary the copy fills option by option, so
      a copy interrupted by a missing or malformed option leaves the
      options read before it. */
  datatype Watched = Watched(
    nameNode: Option<string>, port: Option<int>, siteName: Option<string>,
    software: Option<string>, version: Option<string>, limit: Option<int>,
    url: Option<string>, user: Option<string>, publicIP: Option<string>,
    hll: Option<Registry.Hll>)

  const Unfilled := Watched(None, None, None, None, None, None, None, None, None, None)

  /** The watch list: endpoint names in insertion order. */
  type Watchlist = seq<(string, Watched)>

  /** The definition has everything the copy reads, and both numbers parse. */
  predicate Complete(d: Registry.Definition) {
    d.nameNode.Some? && d.port.Some? && Registry.IsInt(d.port.value) && d.siteName.Some?
    && d.software.Some? && d.version.Some? && d.limit.Some? && Registry.IsInt(d.limit.value)
    && d.url.Some? && d.user.Some? && d.publicIP.Some? && d.hll.Some?
  }

  /** Every option of the entry is set, equal to the definition's (the
      numbers parsed). */
  predicate CopyOf(w: Watched, d: Registry.Definition) {
    w.nameNode == d.nameNode && w.siteName == d.siteName && w.software == d.software
    && w.version == d.version && w.url == d.url && w.user == d.user
    && w.publicIP == d.publicIP && w.hll == d.hll
    && d.port.Some? && w.port.Some? && Returned(w.port.value) == PyInt(d.port.value)
    && d.limit.Some? && w.limit.Some? && Returned(w.limit.value) == PyInt(d.limit.value)
  }

  /** The options set so far are set in the order the copy reads them. */
  predicate FilledInOrder(w: Watched) {
    (w.port.Some? ==> w.nameNode.Some?) && (w.siteName.Some? ==> w.port.Some?)
    && (w.software.Some? ==> w.siteName.Some?) && (w.version.Some? ==> w.software.Some?)
    && (w.limit.Some? ==> w.version.Some?) && (w.url.Some? ==> w.limit.Some?)
    && (w.user.Some? ==> w.url.Some?) && (w.publicIP.Some? ==> w.user.Some?)
    && (w.hll.Some? ==> w.publicIP.Some?)
  }

  /** The options that are set agree with the definition. */
  predicate AgreesWith(w: Watched, d: Registry.Definition) {
    (w.nameNode.Some? ==> w.nameNode == d.nameNode) && (w.siteName.Some? ==> w.siteName == d.siteName)
    && (w.software.Some? ==> w.software == d.software) && (w.version.Some? ==> w.version == d.version)
    && (w.url.Some? ==> w.url == d.url) && (w.user.Some? ==> w.user == d.user)
    && (w.publicIP.Some? ==> w.publicIP == d.publicIP) && (w.hll.Some? ==> w.hll == d.hll)
    && (w.port.Some? ==> d.port.Some? && Returned(w.port.value) == PyInt(d.port.value))
    && (w.limit.Some? ==> d.limit.Some? && Returned(w.limit.value) == PyInt(d.limit.value))
  }

  /** The monitor's copy of one definition: the option check only logs,
      then NameNode, Port, SiteName, BigDataSoftware, BigDataSoftwareVersion,
      LimitQueueJobsEndPoint, URL, User, PublicIP and HighLevelLanguage are
      read in that order; the first missing one raises KeyError and a
      number that does not parse raises ValueError. The entry holds what
      was read until then. */
  function CopyWatched(d: Registry.Definition): (r: (Watched, Py<()>))
    ensures r.1.Returned? <==> Complete(d)
    ensures r.1.Returned? ==> CopyOf(r.0, d)
    ensures r.1.Raised? ==> r.1.exception == KeyError || r.1.exception == ValueError
    ensures r.1.Raised? ==> r.0.hll.None?
    ensures FilledInOrder(r.0) && AgreesWith(r.0, d)
  {
    var w := Unfilled;
    if d.nameNode.None? then (w, Raised(KeyError)) else
    var w := w.(nameNode := d.nameNode);
    var port := Registry.ReadInt(d.port);
    if port.Raised? then (w, Raised(port.exception)) else
    var w := w.(port := Some(port.value));
    if d.siteName.None? then (w, Raised(KeyError)) else
    var w := w.(siteName := d.siteName);
    if d.software.None? then (w, Raised(KeyError)) else
    var w := w.(software := d.software);
    if d.version.None? then (w, Raised(KeyError)) else
    var w := w.(version := d.version);
    var limit := Registry.ReadInt(d.limit);
    if limit.Raised? then (w, Raised(limit.exception)) else
    var w := w.(limit := Some(limit.value));
    if d.url.None? then (w, Raised(KeyError)) else
    var w := w.(url := d.url);
    if d.user.None? then (w, Raised(KeyError)) else
    var w := w.(user := d.user);
    if d.publicIP.None? then (w, Raised(KeyError)) else
    var w := w.(publicIP := d.publicIP);
    if d.hll.None? then (w, Raised(KeyError)) else
    (w.(hll := d.hll), Returned(()))
  }

  /** `configureFromSection(section, endpoint)`: a failed lookup is
      returned (and ignored by the caller) and leaves the watch list as it
      was; otherwise the entry is replaced by the copy, even when the copy
      raises part way. */
  function ConfigureFromSection(w: Watchlist, endpoint: string, fetch: string -> Result<Registry.Definition>)
    : (r: (Watchlist, Py<Result<()>>))
    ensures fetch(endpoint).Err? ==> r == (w, Returned(Err(fetch(endpoint).message)))
    ensures fetch(endpoint).Ok? ==>
      Get(r.0, endpoint) == Some(CopyWatched(fetch(endpoint).value).0)
      && (r.1.Returned? <==> Complete(fetch(endpoint).value))
    ensures r.1.Returned? && r.1.value.Ok? ==> CopyOf(Get(r.0, endpoint).value, fetch(endpoint).value)
    ensures forall k :: k != endpoint ==> Get(r.0, k) == Get(w, k)
    ensures DistinctKeys(w) ==> DistinctKeys(r.0)
  {
    match fetch(endpoint)
    case Err(m) => (w, Returned(Err(m)))
    case Ok(d) =>
      var copied := CopyWatched(d);
      (Put(w, endpoint, copied.0), if copied.1.Raised? then Raised(copied.1.exception) else Returned(Ok(())))
  }

  /** The watch list after configuring `names` in turn; a raise stops the
      loop. */
  function ConfigureAll(w: Watchlist, names: seq<string>, fetch: string -> Result<Registry.Definition>)
    : (r: (Watchlist, Py<()>))
    ensures forall k :: k !in names ==> Get(r.0, k) == Get(w, k)
    ensures DistinctKeys(w) ==> DistinctKeys(r.0)
    ensures r.1.Returned? ==> forall n :: n in names && fetch(n).Ok? ==>
      Complete(fetch(n).value) && Get(r.0, n).Some? && CopyOf(Get(r.0, n).value, fetch(n).value)
    ensures r.1.Raised? ==> exists n :: n in names && fetch(n).Ok? && !Complete(fetch(n).value)
    decreases |names|
  {
    if |names| == 0 then (w, Returned(()))
    else
      var step := ConfigureFromSection(w, names[0], fetch);
      if step.1.Raised? then
        assert names[0] in names;
        (step.0, Raised(step.1.exception))
      else
        var r := ConfigureAll(step.0, names[1..], fetch);
        assert forall n :: n in names <==> n == names[0] || n in names[1..];
        if r.1.Returned? then
          forall n | n in names && fetch(n).Ok?
            ensures Complete(fetch(n).value) && Get(r.0, n).Some? && CopyOf(Get(r.0, n).value, fetch(n).value)
          {
            if n !in names[1..] {
              assert n == names[0];
            }
          }
          r
        else r
  }

  /** The configuration path of a pool's EndPointMonitoring list. */
  function MonitoringPath(section: string, pool: string): string {
    section + "/" + pool + "/EndPointMonitoring"
  }

  /** `__getMonitoringPools()`: for every SubmitPool, the comma-separated
      EndPointMonitoring list is configured from the endpoint definitions.
      A pool without that option raises TypeError (`re.split` of None).
      The watch list is never cleared: entries not named keep their value. */
  function MonitoringPools(w: Watchlist, section: string, pools: seq<string>,
                           option: string -> Option<string>, fetch: string -> Result<Registry.Definition>)
    : (r: (Watchlist, Py<()>))
    ensures (exists p :: p in pools && option(MonitoringPath(section, p)).None?) ==> r.1.Raised?
    ensures forall k :: (forall p :: p in pools && option(MonitoringPath(section, p)).Some? ==>
                           k !in Split(option(MonitoringPath(section, p)).value, ',')) ==>
      Get(r.0, k) == Get(w, k)
    ensures r.1.Returned? ==> forall p, n ::
      p in pools && n in Split(option(MonitoringPath(section, p)).value, ',') && fetch(n).Ok? ==>
        Get(r.0, n).Some? && CopyOf(Get(r.0, n).value, fetch(n).value)
    ensures DistinctKeys(w) ==> DistinctKeys(r.0)
    decreases |pools|
  {
    if |pools| == 0 then (w, Returned(()))
    else
      assert forall p :: p in pools <==> p == pools[0] || p in pools[1..];
      match option(MonitoringPath(section, pools[0]))
      case None => (w, Raised(TypeError))
      case Some(list) =>
        var names := Split(list, ',');
        var first := ConfigureAll(w, names, fetch);
        if first.1.Raised? then (first.0, first.1.PropagateFailure())
        else
          var r := MonitoringPools(first.0, section, pools[1..], option, fetch);
          if r.1.Returned? then
            forall p, n | p in pools && n in Split(option(MonitoringPath(section, p)).value, ',') && fetch(n).Ok?
              ensures Get(r.0, n).Some? && CopyOf(Get(r.0, n).value, fetch(n).value)
            {
              if p !in pools[1..] {
                assert p == pools[0];
                if exists q :: q in pools[1..] && n in Split(option(MonitoringPath(section, q)).value, ',') {
                } else {
                  assert Get(r.0, n) == Get(first.0, n);
                }
              }
            }
            r
          else r
  }

  // ---------------------------------------------------------------------
  // Status mapping
  // ---------------------------------------------------------------------

  /** The ledger status a backend answer stands for; None for an answer
      the monitor does not act on. */
  function StatusFor(answer: string): (s: Option<string>)
    ensures s.Some? ==> s.value in {"Done", "Submitted", "Running"}
    ensures s.Some? <==> answer in {"Succeded", "Unknown", "Running"}
  {
    if answer == "Succeded" then Some("Done")
    else if answer == "Unknown" then Some("Submitted")
    else if answer == "Running" then Some("Running")
    else None
  }

  /** A ledger write: the job id and the status set. */
  type Write = (nat, string)

  function WritesFor(jobId: nat, answer: string): (ws: seq<Write>)
    ensures |ws| <= 1
    ensures forall x :: x in ws ==> x.0 == jobId && x.1 in {"Done", "Submitted", "Running"}
  {
    match StatusFor(answer)
    case None => []
    case Some(s) => [(jobId, s)]
  }

  /** The endpoint is polled for a job whose backend row is `row` =
      (backend id, NameNode): its NameNode is the job's, the job has a
      backend id, and it runs Hadoop 1 or 2 without a high-level language. */
  predicate Polls(e: Watched, row: (string, string)) {
    e.nameNode == Some(row.1) && row.0 != ""
    && e.software == Some("hadoop") && (e.version == Some("hdv1") || e.version == Some("hdv2"))
    && e.hll.Some? && e.hll.value.name == "none"
  }

  /** The remote status calls: HadoopV1Client's `jobStatus(id, user, host)`
      and the transport HadoopV2Client's `jobStatus` uses. */
  datatype Remote = Remote(v1Status: (string, string, string) -> Result<Triple>,
                           ssh: string -> Result<Triple>)

  /** The Hadoop 1 block for one endpoint: the answer is the stripped
      stdout of the remote call. */
  function V1Block(e: Watched, jobId: nat, softId: string, remote: Remote): (r: Py<seq<Write>>)
    ensures r.Returned? && |r.value| > 0 ==>
      e.software == Some("hadoop") && e.version == Some("hdv1") && e.hll.Some? && e.hll.value.name == "none"
    ensures r.Returned? ==> |r.value| <= 1
  {
    var software :- Need(e.software);
    if software != "hadoop" then Returned([]) else
    var version :- Need(e.version);
    if version != "hdv1" then Returned([]) else
    var hll :- Need(e.hll);
    if hll.name != "none" then Returned([]) else
    var user :- Need(e.user);
    var host :- Need(e.publicIP);
    match remote.v1Status(softId, user, host)
    case Err(_) => Returned([])
    case Ok(t) => Returned(WritesFor(jobId, Strip(t.stdout)))
  }

  /** The Hadoop 2 block for one endpoint: the answer is the Hadoop 2
      client's parse, compared as it is. */
  function V2Block(e: Watched, jobId: nat, softId: string, remote: Remote): (r: Py<seq<Write>>)
    ensures r.Returned? && |r.value| > 0 ==>
      e.software == Some("hadoop") && e.version == Some("hdv2") && e.hll.Some? && e.hll.value.name == "none"
    ensures r.Returned? ==> |r.value| <= 1
  {
    var software :- Need(e.software);
    if software != "hadoop" then Returned([]) else
    var version :- Need(e.version);
    if version != "hdv2" then Returned([]) else
    var hll :- Need(e.hll);
    if hll.name != "none" then Returned([]) else
    var user :- Need(e.user);
    var host :- Need(e.publicIP);
    var answer :- Clients.JobStatus(softId, user, host, remote.ssh);
    match answer
    case Err(_) => Returned([])
    case Ok(a) => Returned(WritesFor(jobId, a))
  }

  /** One job against one watched endpoint. The NameNode is read before
      the backend row is indexed, so a job without a backend row raises
      IndexError only once an endpoint with a NameNode is visited. */
  function PollEndpoint(e: Watched, jobId: nat, rows: seq<(string, string)>, remote: Remote)
    : (r: Py<seq<Write>>)
    ensures e.nameNode.None? ==> r == Raised(KeyError)
    ensures e.nameNode.Some? && |rows| == 0 ==> r == Raised(IndexError)
    ensures r.Returned? && |r.value| > 0 ==> |rows| > 0 && Polls(e, rows[0])
    ensures r.Returned? ==> |r.value| <= 1
    ensures r.Returned? ==> forall x :: x in r.value ==> x.0 == jobId && x.1 in {"Done", "Submitted", "Running"}
  {
    var nameNode :- Need(e.nameNode);
    if |rows| == 0 then Raised(IndexError)
    else if !(nameNode == rows[0].1 && rows[0].0 != "") then Returned([])
    else
      var first :- V1Block(e, jobId, rows[0].0, remote);
      var second :- V2Block(e, jobId, rows[0].0, remote);
      assert |first| == 0 || |second| == 0;
      WritesForAreJobs(e, jobId, rows[0].0, remote);
      Returned(first + second)
  }

  /** Once the job's row is matched, an endpoint that raises does so
      before its status write: the Hadoop 1 block writes last, and after
      it has written the Hadoop 2 block returns without raising. */
  lemma RaiseLosesNoWrite(e: Watched, jobId: nat, rows: seq<(string, string)>, remote: Remote)
    requires |rows| > 0 && e.nameNode == Some(rows[0].1) && rows[0].0 != ""
    requires PollEndpoint(e, jobId, rows, remote).Raised?
    ensures !(V1Block(e, jobId, rows[0].0, remote).Returned? && |V1Block(e, jobId, rows[0].0, remote).value| > 0)
  {
  }

  lemma WritesForAreJobs(e: Watched, jobId: nat, softId: string, remote: Remote)
    ensures V1Block(e, jobId, softId, remote).Returned? ==>
      forall x :: x in V1Block(e, jobId, softId, remote).value ==> x.0 == jobId && x.1 in {"Done", "Submitted", "Running"}
    ensures V2Block(e, jobId, softId, remote).Returned? ==>
      forall x :: x in V2Block(e, jobId, softId, remote).value ==> x.0 == jobId && x.1 in {"Done", "Submitted", "Running"}
  {
  }

  /** A write for `jobId` that some endpoint of the watch list justifies. */
  predicate Justified(w: Watchlist, jobId: nat, rows: seq<(string, string)>, x: Write) {
    x.0 == jobId && x.1 in {"Done", "Submitted", "Running"}
    && |rows| > 0 && exists i :: 0 <= i < |w| && Polls(w[i].1, rows[0])
  }

  /** One job against every watched endpoint, in order: one poll per
      endpoint that polls it. `setJobStatus` writes to the ledger at once,
      so the result is the writes made, and whether the loop raised; a raise
      keeps the writes of the endpoints before it. */
  function PollJob(w: Watchlist, jobId: nat, rows: seq<(string, string)>, remote: Remote)
    : (r: (seq<Write>, Py<()>))
    ensures |r.0| <= |w|
    decreases |w|
  {
    if |w| == 0 then ([], Returned(()))
    else
      match PollEndpoint(w[0].1, jobId, rows, remote)
      case Raised(e) => ([], Raised(e))
      case Returned(here) =>
        var rest := PollJob(w[1..], jobId, rows, remote);
        (here + rest.0, rest.1)
  }

  /** The jobs of one status list, in order; a raise keeps the writes made
      for the jobs before it and for the raising job so far. */
  function PollJobs(w: Watchlist, ids: seq<nat>, backendRows: nat -> seq<(string, string)>, remote: Remote)
    : (seq<Write>, Py<()>)
    decreases |ids|
  {
    if |ids| == 0 then ([], Returned(()))
    else
      var here := PollJob(w, ids[0], backendRows(ids[0]), remote);
      if here.1.Raised? then here
      else
        var rest := PollJobs(w, ids[1..], backendRows, remote);
        (here.0 + rest.0, rest.1)
  }

  /** The three status lists the cycle reads, in the order it visits them. */
  const Watchedstatuses: seq<string> := ["Submitted", "Running", "Unknown"]

  /** `getBigDataJobsByStatus(status)`. As written it reads the undefined
      state vocabulary (or, were it defined, indexes the row list with
      'Value'); as intended the rows of the query come back for a known
      status. */
  function PendingFor(states: Option<seq<string>>, status: string, query: Result<seq<nat>>, mode: Mode)
    : (r: Py<Result<seq<nat>>>)
    // as written no status ever yields job ids, and the ledger's missing vocabulary raises
    ensures mode == AsWritten ==> !(r.Returned? && r.value.Ok?)
    ensures mode == AsWritten && states.None? ==> r == Raised(AttributeError)
    // as intended a watched status yields the query's ids, and nothing else does
    ensures mode == Intended ==>
      (r.Returned? && (r.value.Ok? <==> status in Ledger.IntendedInstanceStates && query.Ok?))
    ensures mode == Intended && status in Ledger.IntendedInstanceStates ==> r.value == query
  {
    if mode == AsWritten then Ledger.JobsByStatus(states, status, query)
    else Returned(Ledger.JobsByStatusIntended(Ledger.IntendedInstanceStates, status, query))
  }

  /** The status lists in turn; a failed list is skipped, and a raise
      keeps the writes made before it. */
  function PollStatuses(w: Watchlist, pending: seq<Result<seq<nat>>>,
                        backendRows: nat -> seq<(string, string)>, remote: Remote)
    : (r: (seq<Write>, Py<()>))
    ensures (forall i :: 0 <= i < |pending| ==> pending[i].Err?) ==> r == ([], Returned(()))
    decreases |pending|
  {
    if |pending| == 0 then ([], Returned(()))
    else
      var here := if pending[0].Ok? then PollJobs(w, pending[0].value, backendRows, remote) else ([], Returned(()));
      if here.1.Raised? then here
      else
        var rest := PollStatuses(w, pending[1..], backendRows, remote);
        if forall i :: 0 <= i < |pending| ==> pending[i].Err? then
          assert forall i :: 0 <= i < |pending[1..]| ==> pending[1..][i].Err? by {
            forall i | 0 <= i < |pending[1..]| ensures pending[1..][i].Err? {
              assert pending[1..][i] == pending[i + 1];
            }
          }
          assert pending[0].Err? && here == ([], Returned(())) && rest == ([], Returned(()));
          assert here.0 + rest.0 == [];
          assert rest.1 == Returned(());
          (here.0 + rest.0, rest.1)
        else
          (here.0 + rest.0, rest.1)
  }

  /** What one cycle reads besides the watch list. */
  datatype Inputs = Inputs(
    states: Option<seq<string>>,            // the ledger's state vocabulary
    queries: string -> Result<seq<nat>>,    // the job ids per status
    section: string, pools: seq<string>,
    option: string -> Option<string>,
    fetch: string -> Result<Registry.Definition>,
    backendRows: nat -> seq<(string, string)>,
    remote: Remote)

  /** One `execute`: the three status lists, the watch list reload, then
      the polls. Returns the watch list afterwards, the writes made (kept
      when a later poll raises) and whether the cycle raised. */
  function Cycle(w: Watchlist, inp: Inputs, mode: Mode): (r: (Watchlist, seq<Write>, Py<()>))
    ensures DistinctKeys(w) ==> DistinctKeys(r.0)
    // nothing is written unless the three lists were read and the watch
    // list reloaded
    ensures |r.1| > 0 ==>
      PendingFor(inp.states, "Submitted", inp.queries("Submitted"), mode).Returned?
      && PendingFor(inp.states, "Running", inp.queries("Running"), mode).Returned?
      && PendingFor(inp.states, "Unknown", inp.queries("Unknown"), mode).Returned?
      && MonitoringPools(w, inp.section, inp.pools, inp.option, inp.fetch).1.Returned?
  {
    var submitted := PendingFor(inp.states, "Submitted", inp.queries("Submitted"), mode);
    if submitted.Raised? then (w, [], Raised(submitted.exception)) else
    var running := PendingFor(inp.states, "Running", inp.queries("Running"), mode);
    if running.Raised? then (w, [], Raised(running.exception)) else
    var unknown := PendingFor(inp.states, "Unknown", inp.queries("Unknown"), mode);
    if unknown.Raised? then (w, [], Raised(unknown.exception)) else
    var reloaded := MonitoringPools(w, inp.section, inp.pools, inp.option, inp.fetch);
    if reloaded.1.Raised? then (reloaded.0, [], Raised(reloaded.1.exception)) else
    var pending := [submitted.value, running.value, unknown.value];
    var polled := PollStatuses(reloaded.0, pending, inp.backendRows, inp.remote);
    (reloaded.0, polled.0, polled.1)
  }

  /** A status list the cycle polls is its query's rows. */
  lemma PendingComesFromQueries(states: Option<seq<string>>, queries: string -> Result<seq<nat>>, mode: Mode,
                                a: Result<seq<nat>>, b: Result<seq<nat>>, c: Result<seq<nat>>)
    requires PendingFor(states, "Submitted", queries("Submitted"), mode) == Returned(a)
    requires PendingFor(states, "Running", queries("Running"), mode) == Returned(b)
    requires PendingFor(states, "Unknown", queries("Unknown"), mode) == Returned(c)
    ensures forall i :: 0 <= i < 3 && [a, b, c][i].Ok? ==>
      [a, b, c][i] == queries(Watchedstatuses[i])
  {
  }

  /** The monitor never writes Unknown, writes only for a job one of the
      three status queries listed, and only on the answer of an endpoint
      of the reloaded watch list that polls that job. */
  lemma CycleSound(w: Watchlist, inp: Inputs, mode: Mode)
    ensures var r := Cycle(w, inp, mode);
      forall x :: x in r.1 ==>
        x.1 in {"Done", "Submitted", "Running"}
        && (exists s :: s in Watchedstatuses && inp.queries(s).Ok? && x.0 in inp.queries(s).value)
        && Justified(r.0, x.0, inp.backendRows(x.0), x)
  {
    var submitted := PendingFor(inp.states, "Submitted", inp.queries("Submitted"), mode);
    var running := PendingFor(inp.states, "Running", inp.queries("Running"), mode);
    var unknown := PendingFor(inp.states, "Unknown", inp.queries("Unknown"), mode);
    var reloaded := MonitoringPools(w, inp.section, inp.pools, inp.option, inp.fetch);
    if submitted.Returned? && running.Returned? && unknown.Returned? && reloaded.1.Returned? {
      var pending := [submitted.value, running.value, unknown.value];
      PendingComesFromQueries(inp.states, inp.queries, mode, submitted.value, running.value, unknown.value);
      PollStatusesSound(reloaded.0, pending, inp.backendRows, inp.remote);
      var polled := PollStatuses(reloaded.0, pending, inp.backendRows, inp.remote);
      assert Cycle(w, inp, mode) == (reloaded.0, polled.0, polled.1);
      forall x | x in polled.0
        ensures exists s :: s in Watchedstatuses && inp.queries(s).Ok? && x.0 in inp.queries(s).value
      {
        var i :| 0 <= i < |pending| && pending[i].Ok? && x.0 in pending[i].value;
        assert pending[i] == inp.queries(Watchedstatuses[i]);
      }
    }
  }

  // ---------------------------------------------------------------------
  // Applying the writes
  // ---------------------------------------------------------------------

  /** The ledger after `setJobStatus` for each write in turn. */
  function ApplyWrites(jobs: Ledger.Jobs, writes: seq<Write>): (r: Ledger.Jobs)
    ensures r.Keys == jobs.Keys
    // only statuses change, and only to a status some write sets
    ensures forall j :: j in jobs ==> r[j] == jobs[j].(status := r[j].status)
    ensures forall j :: j in jobs ==> r[j].status == jobs[j].status || (j, r[j].status) in writes
    ensures forall j :: j in jobs && (forall x :: x in writes ==> x.0 != j) ==> r[j] == jobs[j]
    decreases |writes|
  {
    if |writes| == 0 then jobs
    else
      var r := ApplyWrites(Ledger.SetJobStatus(jobs, writes[0].0, writes[0].1), writes[1..]);
      assert forall x :: x in writes[1..] ==> x in writes;
      r
  }

  // ---------------------------------------------------------------------
  // Properties of the status mapping and the cycle
  // ---------------------------------------------------------------------

  /** The answer that leads to each status the monitor writes. */
  function AnswerFor(status: string): Option<string> {
    if status == "Done" then Some("Succeded")
    else if status == "Submitted" then Some("Unknown")
    else if status == "Running" then Some("Running")
    else None
  }

  /** The mapping is one-to-one: a written status names the answer behind
      it, and no answer leads to Unknown. */
  lemma StatusForInverse(answer: string, status: string)
    ensures StatusFor(answer) == Some(status) <==> AnswerFor(status) == Some(answer)
    ensures StatusFor(answer) != Some("Unknown")
  {
  }

  /** The answer an endpoint's backend gives for `softId` as the monitor
      compares it: Hadoop 1's stripped output, the Hadoop 2 client's parsed
      state; None when the call fails or the parse raises. */
  function AnswerOf(e: Watched, softId: string, remote: Remote): Option<string>
    requires e.user.Some? && e.publicIP.Some?
  {
    if e.version == Some("hdv1") then
      match remote.v1Status(softId, e.user.value, e.publicIP.value)
      case Ok(t) => Some(Strip(t.stdout))
      case Err(_) => None
    else
      match Clients.JobStatus(softId, e.user.value, e.publicIP.value, remote.ssh)
      case Returned(Ok(a)) => Some(a)
      case _ => None
  }

  /** An endpoint that polls the job writes the status its backend's answer
      stands for, and nothing when the answer is unrecognised; it raises
      only when the Hadoop 2 output has no state line. */
  lemma PollEndpointWritesAnswer(e: Watched, jobId: nat, rows: seq<(string, string)>, remote: Remote)
    requires |rows| > 0 && Polls(e, rows[0]) && e.user.Some? && e.publicIP.Some?
    ensures var r := PollEndpoint(e, jobId, rows, remote);
      var answer := AnswerOf(e, rows[0].0, remote);
      (r.Returned? ==> r.value == if answer.Some? then WritesFor(jobId, answer.value) else [])
      && (r.Raised? <==>
            e.version == Some("hdv2") && Clients.JobStatus(rows[0].0, e.user.value, e.publicIP.value, remote.ssh).Raised?)
  {
  }

  /** An endpoint that polls the job and gets a mapped answer writes its status. */
  lemma AnsweringEndpointWrites(e: Watched, jobId: nat, rows: seq<(string, string)>, remote: Remote,
                                answer: string)
    requires |rows| > 0 && Polls(e, rows[0]) && e.user.Some? && e.publicIP.Some?
    requires AnswerOf(e, rows[0].0, remote) == Some(answer) && StatusFor(answer).Some?
    requires PollEndpoint(e, jobId, rows, remote).Returned?
    ensures (jobId, StatusFor(answer).value) in PollEndpoint(e, jobId, rows, remote).value
  {
    PollEndpointWritesAnswer(e, jobId, rows, remote);
    assert WritesFor(jobId, answer) == [(jobId, StatusFor(answer).value)];
  }

  /** A poll of a watch list whose first endpoint returned is that
      endpoint's writes followed by the poll of the rest. */
  lemma PollJobCons(w: Watchlist, jobId: nat, rows: seq<(string, string)>, remote: Remote)
    requires |w| > 0 && PollEndpoint(w[0].1, jobId, rows, remote).Returned?
    ensures PollJob(w, jobId, rows, remote)
      == (PollEndpoint(w[0].1, jobId, rows, remote).value + PollJob(w[1..], jobId, rows, remote).0,
          PollJob(w[1..], jobId, rows, remote).1)
  {
  }

  /** Every write of a job's poll, raised or not, is for that job, with a
      status the monitor writes, and some endpoint of the watch list polls
      the job. */
  lemma {:induction false} PollJobSound(w: Watchlist, jobId: nat, rows: seq<(string, string)>, remote: Remote)
    ensures forall x :: x in PollJob(w, jobId, rows, remote).0 ==> Justified(w, jobId, rows, x)
    decreases |w|
  {
    if |w| > 0 && PollEndpoint(w[0].1, jobId, rows, remote).Returned? {
      PollJobCons(w, jobId, rows, remote);
      PollJobSound(w[1..], jobId, rows, remote);
      var here := PollEndpoint(w[0].1, jobId, rows, remote).value;
      forall x | x in PollJob(w, jobId, rows, remote).0
        ensures Justified(w, jobId, rows, x)
      {
        if x in here {
          assert Polls(w[0].1, rows[0]);
        } else {
          assert Justified(w[1..], jobId, rows, x);
          var i :| 0 <= i < |w[1..]| && Polls(w[1..][i].1, rows[0]);
          assert w[1..][i] == w[i + 1];
        }
      }
    }
  }

  /** A poll of a job that did not raise did not raise at its first
      endpoint. */
  lemma PollJobHead(w: Watchlist, jobId: nat, rows: seq<(string, string)>, remote: Remote)
    requires |w| > 0 && PollJob(w, jobId, rows, remote).1.Returned?
    ensures PollEndpoint(w[0].1, jobId, rows, remote).Returned?
  {
  }

  /** A poll of a job that did not raise visited every endpoint of the
      watch list, and each endpoint's writes are among the job's writes. */
  lemma {:induction false} PollJobVisits(w: Watchlist, jobId: nat, rows: seq<(string, string)>,
                                         remote: Remote, i: nat)
    requires i < |w| && PollJob(w, jobId, rows, remote).1.Returned?
    ensures PollEndpoint(w[i].1, jobId, rows, remote).Returned?
    ensures forall x :: x in PollEndpoint(w[i].1, jobId, rows, remote).value ==>
      x in PollJob(w, jobId, rows, remote).0
    decreases i
  {
    PollJobHead(w, jobId, rows, remote);
    PollJobCons(w, jobId, rows, remote);
    var here := PollEndpoint(w[0].1, jobId, rows, remote).value;
    var rest := PollJob(w[1..], jobId, rows, remote).0;
    if i > 0 {
      PollJobVisits(w[1..], jobId, rows, remote, i - 1);
      assert w[1..][i - 1] == w[i];
      forall x | x in PollEndpoint(w[i].1, jobId, rows, remote).value
        ensures x in PollJob(w, jobId, rows, remote).0
      {
        assert x in rest;
        assert x in here + rest;
      }
    } else {
      forall x | x in here ensures x in PollJob(w, jobId, rows, remote).0 {
        assert x in here + rest;
      }
    }
  }

  lemma PollJobComplete(w: Watchlist, jobId: nat, rows: seq<(string, string)>,
                                           remote: Remote, i: nat, answer: string)
    requires Answers(w, rows, remote, i, answer)
    ensures PollJob(w, jobId, rows, remote).1.Returned? ==>
      (jobId, StatusFor(answer).value) in PollJob(w, jobId, rows, remote).0
  {
    if PollJob(w, jobId, rows, remote).1.Returned? {
      PollJobVisits(w, jobId, rows, remote, i);
      AnsweringEndpointWrites(w[i].1, jobId, rows, remote, answer);
    }
  }

  /** A failed or killed Hadoop 2 job is reported Unknown by the client,
      so the monitor writes it back as Submitted. */
  lemma FailedHadoop2JobStaysSubmitted(e: Watched, jobId: nat, rows: seq<(string, string)>, remote: Remote)
    requires |rows| > 0 && Polls(e, rows[0]) && e.version == Some("hdv2")
    requires e.user.Some? && e.publicIP.Some?
    requires remote.ssh(Clients.StatusCommand(rows[0].0, e.user.value, e.publicIP.value))
             == Ok(Triple(0, "Job state: FAILED", ""))
    ensures PollEndpoint(e, jobId, rows, remote) == Returned([(jobId, "Submitted")])
  {
    FailedStateIsUnknown();
    assert AnswerOf(e, rows[0].0, remote) == Some("Unknown");
    PollEndpointWritesAnswer(e, jobId, rows, remote);
  }

  /** The Hadoop 1 answer is compared after stripping: a finished job's
      "Succeded" followed by a line break is written Done. */
  lemma Hadoop1AnswerIsStripped(e: Watched, jobId: nat, rows: seq<(string, string)>, remote: Remote)
    requires |rows| > 0 && Polls(e, rows[0]) && e.version == Some("hdv1")
    requires e.user.Some? && e.publicIP.Some?
    requires remote.v1Status(rows[0].0, e.user.value, e.publicIP.value) == Ok(Triple(0, "Succeded\n", ""))
    ensures PollEndpoint(e, jobId, rows, remote) == Returned([(jobId, "Done")])
  {
    StripSucceded();
    assert AnswerOf(e, rows[0].0, remote) == Some("Succeded");
    PollEndpointWritesAnswer(e, jobId, rows, remote);
  }

  /** Hadoop 2 prints "Job state: FAILED" for a failed job. */
  lemma FailedStateIsUnknown()
    ensures Clients.StatusOfOutput("Job state: FAILED") == Returned(Ok("Unknown"))
  {
    var line := "Job state: FAILED";
    ContainsInfix("Job ", "state", ": FAILED");
    assert "Job " + "state" + ": FAILED" == line;
    assert [] + [line] + [] == [line];
    Clients.FirstStateLineDecides([], line, []);
    assert Join([line], '\n') == line;
  }

  lemma StripSucceded()
    ensures Strip("Succeded\n") == "Succeded"
  {
    var a, w := "Succeded", "\n";
    assert a[|a| - 1] == 'd' && w[0] == '\n' && |w| == 1;
    RStripTrailing(a, w);
    assert a + w == "Succeded\n";
    assert a[0] == 'S';
    assert LStrip(a) == a;
  }

  /** As written no cycle writes anything: with the ledger's own
      vocabularies the first status query raises AttributeError before the
      watch list is even reloaded, and with any vocabulary a query either
      raises or fails. */
  lemma AsWrittenCycleWritesNothing(w: Watchlist, inp: Inputs)
    ensures Cycle(w, inp, AsWritten).1 == []
    ensures inp.states == Ledger.AsWrittenVocabularies.instanceStates ==>
      Cycle(w, inp, AsWritten) == (w, [], Raised(AttributeError))
  {
    var a := PendingFor(inp.states, "Submitted", inp.queries("Submitted"), AsWritten);
    var b := PendingFor(inp.states, "Running", inp.queries("Running"), AsWritten);
    var c := PendingFor(inp.states, "Unknown", inp.queries("Unknown"), AsWritten);
    var reloaded := MonitoringPools(w, inp.section, inp.pools, inp.option, inp.fetch);
    if a.Raised? {
      assert Cycle(w, inp, AsWritten) == (w, [], Raised(a.exception));
    } else if b.Raised? {
      assert Cycle(w, inp, AsWritten) == (w, [], Raised(b.exception));
    } else if c.Raised? {
      assert Cycle(w, inp, AsWritten) == (w, [], Raised(c.exception));
    } else if reloaded.1.Raised? {
      assert Cycle(w, inp, AsWritten) == (reloaded.0, [], Raised(reloaded.1.exception));
    } else {
      var polled := PollStatuses(reloaded.0, [a.value, b.value, c.value], inp.backendRows, inp.remote);
      AsWrittenListsPollNothing(reloaded.0, inp);
      assert Cycle(w, inp, AsWritten) == (reloaded.0, polled.0, polled.1);
    }
  }

  /** As written the three status lists that come back are all failures,
      so polling them writes nothing. */
  lemma AsWrittenListsPollNothing(w: Watchlist, inp: Inputs)
    requires PendingFor(inp.states, "Submitted", inp.queries("Submitted"), AsWritten).Returned?
    requires PendingFor(inp.states, "Running", inp.queries("Running"), AsWritten).Returned?
    requires PendingFor(inp.states, "Unknown", inp.queries("Unknown"), AsWritten).Returned?
    ensures var pending := [PendingFor(inp.states, "Submitted", inp.queries("Submitted"), AsWritten).value,
                            PendingFor(inp.states, "Running", inp.queries("Running"), AsWritten).value,
                            PendingFor(inp.states, "Unknown", inp.queries("Unknown"), AsWritten).value];
      PollStatuses(w, pending, inp.backendRows, inp.remote) == ([], Returned(()))
  {
    var pending := [PendingFor(inp.states, "Submitted", inp.queries("Submitted"), AsWritten).value,
                    PendingFor(inp.states, "Running", inp.queries("Running"), AsWritten).value,
                    PendingFor(inp.states, "Unknown", inp.queries("Unknown"), AsWritten).value];
    assert forall i :: 0 <= i < |pending| ==> pending[i].Err?;
  }

  /** Endpoint `i` of the watch list polls the job whose backend row is
      `rows[0]`, has what the call needs, and answers with a recognised
      `answer`. */
  predicate Answers(w: Watchlist, rows: seq<(string, string)>, remote: Remote, i: nat, answer: string) {
    i < |w| && |rows| > 0 && Polls(w[i].1, rows[0]) && w[i].1.user.Some? && w[i].1.publicIP.Some?
    && AnswerOf(w[i].1, rows[0].0, remote) == Some(answer) && StatusFor(answer).Some?
  }

  /** A poll of a list of jobs whose first job did not raise is that job's
      writes followed by the poll of the rest. */
  lemma PollJobsCons(w: Watchlist, ids: seq<nat>, backendRows: nat -> seq<(string, string)>, remote: Remote)
    requires |ids| > 0 && PollJob(w, ids[0], backendRows(ids[0]), remote).1.Returned?
    ensures PollJobs(w, ids, backendRows, remote)
      == (PollJob(w, ids[0], backendRows(ids[0]), remote).0 + PollJobs(w, ids[1..], backendRows, remote).0,
          PollJobs(w, ids[1..], backendRows, remote).1)
  {
  }

  /** The same for the status lists; a failed list contributes nothing. */
  lemma PollStatusesCons(w: Watchlist, pending: seq<Result<seq<nat>>>,
                         backendRows: nat -> seq<(string, string)>, remote: Remote)
    requires |pending| > 0
    requires pending[0].Ok? ==> PollJobs(w, pending[0].value, backendRows, remote).1.Returned?
    ensures PollStatuses(w, pending, backendRows, remote)
      == ((if pending[0].Ok? then PollJobs(w, pending[0].value, backendRows, remote).0 else [])
            + PollStatuses(w, pending[1..], backendRows, remote).0,
          PollStatuses(w, pending[1..], backendRows, remote).1)
  {
  }

  /** The writes made for the jobs before the first raising one all stay
      in the list's writes, in order: a later raise takes none of them
      back. */
  lemma {:induction false} PollJobsKeepsEarlier(w: Watchlist, ids: seq<nat>,
                                                backendRows: nat -> seq<(string, string)>, remote: Remote, k: nat)
    requires k <= |ids|
    requires forall i :: 0 <= i < k ==> PollJob(w, ids[i], backendRows(ids[i]), remote).1.Returned?
    ensures PollJobs(w, ids[..k], backendRows, remote).1.Returned?
    ensures PollJobs(w, ids[..k], backendRows, remote).0 <= PollJobs(w, ids, backendRows, remote).0
    decreases k
  {
    if k > 0 {
      var first := PollJob(w, ids[0], backendRows(ids[0]), remote);
      var tail := ids[1..];
      assert ids[..k][0] == ids[0];
      assert ids[..k][1..] == tail[..k - 1];
      forall i | 0 <= i < k - 1
        ensures PollJob(w, tail[i], backendRows(tail[i]), remote).1.Returned?
      {
        assert tail[i] == ids[i + 1];
      }
      PollJobsKeepsEarlier(w, tail, backendRows, remote, k - 1);
      PollJobsCons(w, ids[..k], backendRows, remote);
      PollJobsCons(w, ids, backendRows, remote);
      var a := PollJobs(w, tail[..k - 1], backendRows, remote).0;
      var b := PollJobs(w, tail, backendRows, remote).0;
      assert first.0 + a == (first.0 + b)[..|first.0| + |a|];
    }
  }

  /** A job finished on the only endpoint of a Hadoop 1 watch list is
      polled Done, without a raise. */
  lemma FinishedJobPolledDone(e: Watched, jobId: nat, rows: seq<(string, string)>, remote: Remote)
    requires |rows| > 0 && Polls(e, rows[0]) && e.version == Some("hdv1")
    requires e.user.Some? && e.publicIP.Some?
    requires remote.v1Status(rows[0].0, e.user.value, e.publicIP.value) == Ok(Triple(0, "Succeded\n", ""))
    ensures PollJob([("ep", e)], jobId, rows, remote) == ([(jobId, "Done")], Returned(()))
  {
    var w := [("ep", e)];
    Hadoop1AnswerIsStripped(e, jobId, rows, remote);
    PollJobCons(w, jobId, rows, remote);
    assert w[1..] == [];
    assert PollJob(w[1..], jobId, rows, remote) == ([], Returned(()));
    assert [(jobId, "Done")] + [] == [(jobId, "Done")];
  }

  /** A Hadoop 1 endpoint with NameNode "nn", job 1 finished on it and job 2
      without a backend row: polling [1, 2] writes job 1 Done, then raises
      IndexError on job 2, and the write stays. */
  lemma DoneWriteSurvivesLaterRaise(e: Watched, backendRows: nat -> seq<(string, string)>, remote: Remote)
    requires e == Watched(Some("nn"), Some(9000), Some("site"), Some("hadoop"), Some("hdv1"), Some(2),
                          Some("url"), Some("u"), Some("h"), Some(Registry.Hll("none", "")))
    requires backendRows(1) == [("j1", "nn")] && backendRows(2) == []
    requires remote.v1Status("j1", "u", "h") == Ok(Triple(0, "Succeded\n", ""))
    ensures PollJobs([("ep", e)], [1, 2], backendRows, remote) == ([(1, "Done")], Raised(IndexError))
  {
    var w := [("ep", e)];
    FinishedJobPolledDone(e, 1, backendRows(1), remote);
    assert PollEndpoint(e, 2, backendRows(2), remote) == Raised(IndexError);
    assert PollJob(w, 2, backendRows(2), remote) == ([], Raised(IndexError));
    assert [1, 2][1..] == [2];
    assert PollJobs(w, [2], backendRows, remote) == ([], Raised(IndexError));
    PollJobsCons(w, [1, 2], backendRows, remote);
    assert [(1, "Done")] + [] == [(1, "Done")];
  }

  /** Every write of a list's polls, raised or not, is for a listed job and
      justified. */
  lemma {:induction false} PollJobsSound(w: Watchlist, ids: seq<nat>, backendRows: nat -> seq<(string, string)>,
                                         remote: Remote)
    ensures forall x :: x in PollJobs(w, ids, backendRows, remote).0 ==>
      x.0 in ids && Justified(w, x.0, backendRows(x.0), x)
    decreases |ids|
  {
    if |ids| > 0 {
      var here := PollJob(w, ids[0], backendRows(ids[0]), remote);
      PollJobSound(w, ids[0], backendRows(ids[0]), remote);
      if here.1.Returned? {
        PollJobsCons(w, ids, backendRows, remote);
        PollJobsSound(w, ids[1..], backendRows, remote);
        forall x | x in PollJobs(w, ids, backendRows, remote).0
          ensures x.0 in ids && Justified(w, x.0, backendRows(x.0), x)
        {
          if x in here.0 {
            assert Justified(w, ids[0], backendRows(ids[0]), x);
          } else {
            assert x in PollJobs(w, ids[1..], backendRows, remote).0;
            assert x.0 in ids[1..];
          }
        }
      } else {
        forall x | x in PollJobs(w, ids, backendRows, remote).0
          ensures x.0 in ids && Justified(w, x.0, backendRows(x.0), x)
        {
          assert Justified(w, ids[0], backendRows(ids[0]), x);
        }
      }
    }
  }

  /** Every write of the status lists' polls, raised or not, is for a job
      some successful list names, and justified. */
  lemma {:induction false} PollStatusesSound(w: Watchlist, pending: seq<Result<seq<nat>>>,
                                             backendRows: nat -> seq<(string, string)>, remote: Remote)
    ensures forall x :: x in PollStatuses(w, pending, backendRows, remote).0 ==>
      (exists i :: 0 <= i < |pending| && pending[i].Ok? && x.0 in pending[i].value)
      && Justified(w, x.0, backendRows(x.0), x)
    decreases |pending|
  {
    if |pending| > 0 {
      var here := if pending[0].Ok? then PollJobs(w, pending[0].value, backendRows, remote) else ([], Returned(()));
      if pending[0].Ok? {
        PollJobsSound(w, pending[0].value, backendRows, remote);
      }
      if here.1.Returned? {
        PollStatusesCons(w, pending, backendRows, remote);
        PollStatusesSound(w, pending[1..], backendRows, remote);
        forall x | x in PollStatuses(w, pending, backendRows, remote).0
          ensures (exists i :: 0 <= i < |pending| && pending[i].Ok? && x.0 in pending[i].value)
          ensures Justified(w, x.0, backendRows(x.0), x)
        {
          if x in here.0 {
            assert pending[0].Ok? && x.0 in pending[0].value;
          } else {
            assert x in PollStatuses(w, pending[1..], backendRows, remote).0;
            var i :| 0 <= i < |pending[1..]| && pending[1..][i].Ok? && x.0 in pending[1..][i].value;
            assert pending[1..][i] == pending[i + 1];
          }
        }
      } else {
        assert PollStatuses(w, pending, backendRows, remote) == here;
        forall x | x in PollStatuses(w, pending, backendRows, remote).0
          ensures (exists i :: 0 <= i < |pending| && pending[i].Ok? && x.0 in pending[i].value)
          ensures Justified(w, x.0, backendRows(x.0), x)
        {
          assert pending[0].Ok? && x.0 in pending[0].value;
        }
      }
    }
  }

  /** A status poll that did not raise did not raise on its first list. */
  lemma PollStatusesHead(w: Watchlist, pending: seq<Result<seq<nat>>>,
                         backendRows: nat -> seq<(string, string)>, remote: Remote)
    requires |pending| > 0 && PollStatuses(w, pending, backendRows, remote).1.Returned?
    ensures pending[0].Ok? ==> PollJobs(w, pending[0].value, backendRows, remote).1.Returned?
  {
  }

  /** A listed job's writes are among the writes of a list poll that did
      not raise. */
  lemma {:induction false} PollJobsComplete(w: Watchlist, ids: seq<nat>, backendRows: nat -> seq<(string, string)>,
                                            remote: Remote, jobId: nat, x: Write)
    requires PollJobs(w, ids, backendRows, remote).1.Returned?
    requires jobId in ids
    requires PollJob(w, jobId, backendRows(jobId), remote).1.Returned? ==>
      x in PollJob(w, jobId, backendRows(jobId), remote).0
    ensures x in PollJobs(w, ids, backendRows, remote).0
    decreases |ids|
  {
    assert PollJob(w, ids[0], backendRows(ids[0]), remote).1.Returned?;
    PollJobsCons(w, ids, backendRows, remote);
    if ids[0] == jobId {
      assert x in PollJob(w, ids[0], backendRows(ids[0]), remote).0;
    } else {
      assert jobId in ids[1..];
      PollJobsComplete(w, ids[1..], backendRows, remote, jobId, x);
      assert x in PollJobs(w, ids[1..], backendRows, remote).0;
    }
  }

  /** A job some successful list names has its writes among the writes of
      a status poll that did not raise. */
  lemma {:induction false} PollStatusesComplete(w: Watchlist, pending: seq<Result<seq<nat>>>,
                                                backendRows: nat -> seq<(string, string)>, remote: Remote,
                                                j: nat, jobId: nat, x: Write)
    requires PollStatuses(w, pending, backendRows, remote).1.Returned?
    requires j < |pending| && pending[j].Ok? && jobId in pending[j].value
    requires PollJob(w, jobId, backendRows(jobId), remote).1.Returned? ==>
      x in PollJob(w, jobId, backendRows(jobId), remote).0
    ensures x in PollStatuses(w, pending, backendRows, remote).0
    decreases |pending|
  {
    PollStatusesHead(w, pending, backendRows, remote);
    PollStatusesCons(w, pending, backendRows, remote);
    if j == 0 {
      PollJobsComplete(w, pending[0].value, backendRows, remote, jobId, x);
      assert x in PollJobs(w, pending[0].value, backendRows, remote).0;
    } else {
      assert pending[1..][j - 1] == pending[j];
      PollStatusesComplete(w, pending[1..], backendRows, remote, j - 1, jobId, x);
      assert x in PollStatuses(w, pending[1..], backendRows, remote).0;
    }
  }

  /** As intended, a job in one of the three status lists is written with
      the status the answer of any endpoint that polls it stands for. */
  lemma IntendedCyclePollsListedJobs(w: Watchlist, inp: Inputs, j: nat, jobId: nat, i: nat, answer: string)
    requires Cycle(w, inp, Intended).2.Returned?
    requires j < |Watchedstatuses| && inp.queries(Watchedstatuses[j]).Ok?
    requires jobId in inp.queries(Watchedstatuses[j]).value
    requires Answers(Cycle(w, inp, Intended).0, inp.backendRows(jobId), inp.remote, i, answer)
    ensures (jobId, StatusFor(answer).value) in Cycle(w, inp, Intended).1
  {
    var q := inp.queries;
    Ledger.IntendedStatusQueries(q("Submitted"));
    Ledger.IntendedStatusQueries(q("Running"));
    Ledger.IntendedStatusQueries(q("Unknown"));
    var pending := [q("Submitted"), q("Running"), q("Unknown")];
    assert pending[j] == q(Watchedstatuses[j]);
    var reloaded := MonitoringPools(w, inp.section, inp.pools, inp.option, inp.fetch);
    var polled := PollStatuses(reloaded.0, pending, inp.backendRows, inp.remote);
    assert Cycle(w, inp, Intended) == (reloaded.0, polled.0, polled.1);
    PollJobComplete(reloaded.0, jobId, inp.backendRows(jobId), inp.remote, i, answer);
    PollStatusesComplete(reloaded.0, pending, inp.backendRows, inp.remote, j, jobId, (jobId, StatusFor(answer).value));
  }

  /** After a cycle's writes, including those made before a raise, no job
      has newly become Unknown, and jobs the cycle was not asked about keep
      their row. */
  lemma CycleNeverMarksUnknown(jobs: Ledger.Jobs, w: Watchlist, inp: Inputs, mode: Mode)
    ensures var after := ApplyWrites(jobs, Cycle(w, inp, mode).1);
      forall j :: j in jobs && jobs[j].status != "Unknown" ==> after[j].status != "Unknown"
    ensures var after := ApplyWrites(jobs, Cycle(w, inp, mode).1);
      forall j :: j in jobs && (forall s :: s in Watchedstatuses && inp.queries(s).Ok? ==> j !in inp.queries(s).value)
        ==> after[j] == jobs[j]
  {
    CycleSound(w, inp, mode);
    var writes := Cycle(w, inp, mode).1;
    WritesNeverUnknown(jobs, writes);
    WritesSpareUnlisted(jobs, writes, inp.queries);
  }

  lemma WritesNeverUnknown(jobs: Ledger.Jobs, writes: seq<Write>)
    requires forall x :: x in writes ==> x.1 in {"Done", "Submitted", "Running"}
    ensures var after := ApplyWrites(jobs, writes);
      forall j :: j in jobs && jobs[j].status != "Unknown" ==> after[j].status != "Unknown"
  {
    var after := ApplyWrites(jobs, writes);
    forall j | j in jobs && jobs[j].status != "Unknown"
      ensures after[j].status != "Unknown"
    {
      if after[j].status != jobs[j].status {
        assert (j, after[j].status) in writes;
      }
    }
  }

  lemma WritesSpareUnlisted(jobs: Ledger.Jobs, writes: seq<Write>, queries: string -> Result<seq<nat>>)
    requires forall x :: x in writes ==>
      exists s :: s in Watchedstatuses && queries(s).Ok? && x.0 in queries(s).value
    ensures var after := ApplyWrites(jobs, writes);
      forall j :: j in jobs && (forall s :: s in Watchedstatuses && queries(s).Ok? ==> j !in queries(s).value)
        ==> after[j] == jobs[j]
  {
    var after := ApplyWrites(jobs, writes);
    forall j | j in jobs && (forall s :: s in Watchedstatuses && queries(s).Ok? ==> j !in queries(s).value)
      ensures after[j] == jobs[j]
    {
      forall x | x in writes ensures x.0 != j {
        var s :| s in Watchedstatuses && queries(s).Ok? && x.0 in queries(s).value;
      }
    }
  }

}
