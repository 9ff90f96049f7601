/** One cycle of the scheduler agent (`execute`): free slots per endpoint,
    pulling one job per matching task queue, matching it, the pending-job
    map that survives across cycles, the per-(director, endpoint)
    aggregate of admitted jobs, and the dispatch of that aggregate.

    The task queue, the job database, the replica catalog and the ledger's
    counts are the `Services` inputs. Dictionaries iterate in insertion
    order (see `Assoc`).
 */
module Scheduler {
  import opened Base
  import opened Assoc
  import opened Registry
  import opened Matcher
  import opened SubmitPools
  import Ledger
  import Director

  /** A failed count query contributes nothing. */
  function CountOf(r: Result<nat>): nat {
    if r.Ok? then r.value else 0
  }

  /** The free slots of an endpoint: None when its Submitted and Running
      jobs already reach its limit (the endpoint is skipped). */
  function FreeSlots(submitted: Result<nat>, running: Result<nat>, limit: int): (r: Option<nat>)
    ensures var count := CountOf(submitted) + CountOf(running);
      (r.None? <==> count >= limit)
      && (r.Some? ==> r.value >= 1 && r.value + count == limit)
  {
    var count := CountOf(submitted) + CountOf(running);
    if count >= limit then None else Some(limit - count)
  }

  lemma FailedCountIsZero(running: Result<nat>, limit: int, message: string)
    ensures FreeSlots(Err(message), running, limit) == FreeSlots(Ok(0), running, limit)
  {
  }

  /** The jobs pulled from the task queues and not yet admitted: per task
      queue, job id to job name. */
  type Pending = seq<(nat, seq<(nat, string)>)>

  function Queue(p: Pending, tq: nat): seq<(nat, string)> {
    match Get(p, tq)
    case Some(jobs) => jobs
    case None => []
  }

  predicate InPending(p: Pending, tq: nat, job: nat) {
    job in Keys(Queue(p, tq))
  }

  /** `if tq not in pending: pending[tq] = {}`. */
  function EnsureQueue(p: Pending, tq: nat): (r: Pending)
    ensures forall q, j :: InPending(r, q, j) <==> InPending(p, q, j)
  {
    if tq in Keys(p) then p else Put(p, tq, [])
  }

  /** `pending[tq][job] = name`. */
  function AddJob(p: Pending, tq: nat, job: nat, name: string): (r: Pending)
    ensures forall q, j :: InPending(r, q, j) <==> InPending(p, q, j) || (q == tq && j == job)
  {
    Put(p, tq, Put(Queue(p, tq), job, name))
  }

  /** `del pending[tq][job]`. */
  function RemoveJob(p: Pending, tq: nat, job: nat): (r: Pending)
    ensures forall q, j :: InPending(r, q, j) <==> InPending(p, q, j) && !(q == tq && j == job)
  {
    if tq in Keys(p) then Put(p, tq, Remove(Queue(p, tq), job)) else p
  }

  /** One outer entry's inner dictionary, with the outer key alongside. */
  function Row<A, B, C>(a: A, inner: seq<(B, C)>): (row: seq<(A, B, C)>)
    ensures |row| == |inner|
    ensures forall i :: 0 <= i < |row| ==> row[i] == (a, inner[i].0, inner[i].1)
  {
    seq(|inner|, i requires 0 <= i < |inner| => (a, inner[i].0, inner[i].1))
  }

  /** A two-level dictionary as the sequence of (outer key, inner key,
      value) its nested `for` loops meet. */
  function Flat<A, B, C>(m: seq<(A, seq<(B, C)>)>): (r: seq<(A, B, C)>)
    ensures forall x :: x in r ==> exists i :: 0 <= i < |m| && m[i].0 == x.0 && (x.1, x.2) in m[i].1
  {
    if |m| == 0 then []
    else
      var row := Row(m[0].0, m[0].1);
      var rest := Flat(m[1..]);
      assert forall x :: x in row ==> (x.1, x.2) in m[0].1;
      assert forall x :: x in rest ==> exists i :: 0 < i < |m| && m[i].0 == x.0 && (x.1, x.2) in m[i].1 by {
        forall x | x in rest ensures exists i :: 0 < i < |m| && m[i].0 == x.0 && (x.1, x.2) in m[i].1 {
          var i :| 0 <= i < |m[1..]| && m[1..][i].0 == x.0 && (x.1, x.2) in m[1..][i].1;
          assert m[i + 1] == m[1..][i];
        }
      }
      row + rest
  }

  /** What the aggregate records for an admitted job. */
  datatype Admitted = Admitted(
    jobId: nat, jobName: string, endpoint: Endpoint, allowed: nat,
    usePilot: Option<string>, isInteractive: Option<string>,
    arguments: Option<string>, dataset: string)

  /** Director name to endpoint name to the admitted job. */
  type Aggregate = seq<(string, seq<(string, Admitted)>)>

  function Slot(agg: Aggregate, d: string, e: string): Option<Admitted> {
    match Get(agg, d)
    case Some(inner) => Get(inner, e)
    case None => None
  }

  function Inner(agg: Aggregate, d: string): seq<(string, Admitted)> {
    match Get(agg, d)
    case Some(inner) => inner
    case None => []
  }

  /** Both levels of the aggregate are dictionaries. */
  ghost predicate AggregateWellFormed(agg: Aggregate) {
    DistinctKeys(agg) && forall i :: 0 <= i < |agg| ==> DistinctKeys(agg[i].1)
  }

  /** `bigDataJobsToSubmit[d][e] = {...}`: the slot is overwritten. */
  function AdmitInto(agg: Aggregate, d: string, e: string, entry: Admitted): (r: Aggregate)
    ensures forall d', e' :: Slot(r, d', e') == if d' == d && e' == e then Some(entry) else Slot(agg, d', e')
    ensures Keys(r) == Keys(agg) + {d}
    ensures AggregateWellFormed(agg) ==> AggregateWellFormed(r)
  {
    PutKeepsShape(agg, d, e, entry);
    Put(agg, d, Put(Inner(agg, d), e, entry))
  }

  lemma PutKeepsShape(agg: Aggregate, d: string, e: string, entry: Admitted)
    ensures AggregateWellFormed(agg) ==> AggregateWellFormed(Put(agg, d, Put(Inner(agg, d), e, entry)))
  {
    var r := Put(agg, d, Put(Inner(agg, d), e, entry));
    if AggregateWellFormed(agg) {
      InnerDistinct(agg, d);
      forall i | 0 <= i < |r| ensures DistinctKeys(r[i].1) {
        GetIndex(r, i);
        if r[i].0 != d {
          InnerDistinct(agg, r[i].0);
        }
      }
    }
  }

  lemma InnerDistinct(agg: Aggregate, d: string)
    requires AggregateWellFormed(agg)
    ensures DistinctKeys(Inner(agg, d))
  {
    if d in Keys(agg) {
      var i :| 0 <= i < |agg| && agg[i].0 == d;
      GetIndex(agg, i);
    }
  }

  /** One admission, in the order they happen in the cycle. */
  datatype Admission = Admission(director: string, endpointName: string, entry: Admitted)

  /** The entry of the last admission for (d, e), if any. */
  function LastFor(log: seq<Admission>, d: string, e: string): Option<Admitted> {
    if |log| == 0 then None
    else
      var a := log[|log| - 1];
      if a.director == d && a.endpointName == e then Some(a.entry) else LastFor(log[..|log| - 1], d, e)
  }

  function AdmittedIds(log: seq<Admission>): set<nat> {
    set i | 0 <= i < |log| :: log[i].entry.jobId
  }

  /** The cycle's working state. `log` and `pulled` record the admissions
      and the pulls in order; `dataset` is the agent's `jobDataset`, which
      every matcher call overwrites. */
  datatype State = State(pending: Pending, aggregate: Aggregate, log: seq<Admission>,
                         pulled: seq<(nat, nat)>, dataset: string)

  /** The aggregate holds, per (director, endpoint), the last job admitted
      for it: at most one job per endpoint survives the cycle. */
  ghost predicate AggregateIsLastAdmission(s: State) {
    forall d, e :: Slot(s.aggregate, d, e) == LastFor(s.log, d, e)
  }

  /** A job is pending or has been admitted. */
  predicate Accounted(s: State, tq: nat, job: nat) {
    InPending(s.pending, tq, job) || job in AdmittedIds(s.log)
  }

  /** The invariant of the cycle relative to its start `s0`: admissions
      only extend the log, the aggregate follows the log, no job leaves the
      pending map without being admitted, and every pulled job is pending or
      admitted. */
  ghost predicate Keeps(s0: State, s: State) {
    s0.log <= s.log && s0.pulled <= s.pulled
    && (AggregateIsLastAdmission(s0) ==> AggregateIsLastAdmission(s))
    && (AggregateWellFormed(s0.aggregate) ==> AggregateWellFormed(s.aggregate))
    && (forall tq, j :: Accounted(s0, tq, j) ==> Accounted(s, tq, j))
    && ((forall i :: 0 <= i < |s0.pulled| ==> Accounted(s0, s0.pulled[i].0, s0.pulled[i].1)) ==>
          forall i :: 0 <= i < |s.pulled| ==> Accounted(s, s.pulled[i].0, s.pulled[i].1))
  }

  lemma KeepsTransitive(s0: State, s1: State, s2: State)
    requires Keeps(s0, s1) && Keeps(s1, s2)
    ensures Keeps(s0, s2)
  {
    forall j | j in AdmittedIds(s1.log) ensures j in AdmittedIds(s2.log) {
      var i :| 0 <= i < |s1.log| && s1.log[i].entry.jobId == j;
      assert s2.log[i] == s1.log[i];
    }
  }

  /** The collaborators of a cycle, as data. `count(status, nameNode)` is
      the number of ledger rows; `taskQueues` answers for an endpoint's
      whole Requirements dictionary; `pull(endpoint, tq)` is the job the task queue
      hands out; `attributes` and `jdl` are the job database's answers (the
      JDL's Arguments attribute, if any). */
  datatype Services = Services(
    count: (string, string) -> Result<nat>,
    taskQueues: Criteria -> Result<seq<nat>>,
    pull: (string, nat) -> Result<nat>,
    attributes: nat -> Result<map<string, string>>,
    jdl: nat -> Result<Option<string>>,
    inputData: nat -> Result<seq<string>>,
    replicas: string -> Result<Replicas>,
    vocab: Ledger.Vocabularies)

  /** How a step ends: go on, `return` an error result, or raise. */
  datatype Flow = Continue | Return(message: string) | Raise(exception: PyException)

  datatype Progress = Progress(state: State, flow: Flow)

  /** The endpoint being served. */
  datatype Target = Target(director: string, name: string, endpoint: Endpoint, allowed: nat)

  function IdentityOf(e: Endpoint): Identity {
    Identity(e.software, e.version, e.hll.name, e.hll.version)
  }

  /** The aggregate entry. As written it reads the endpoint's UsePilot and
      IsInteractive, which the registry copy never sets: KeyError. */
  function EntryFor(t: Target, job: nat, name: string, arguments: Option<string>, dataset: string,
                    mode: Mode): (r: Py<Admitted>)
    ensures mode == Intended ==> r.Returned?
    ensures mode == AsWritten ==>
      (r.Returned? <==> t.endpoint.usePilot.Some? && t.endpoint.isInteractive.Some?)
    ensures r.Returned? ==>
      r.value == Admitted(job, name, t.endpoint, t.allowed, t.endpoint.usePilot, t.endpoint.isInteractive,
                          arguments, dataset)
  {
    if mode == AsWritten then
      var usePilot :- Need(t.endpoint.usePilot);
      var isInteractive :- Need(t.endpoint.isInteractive);
      Returned(Admitted(job, name, t.endpoint, t.allowed, Some(usePilot), Some(isInteractive), arguments, dataset))
    else
      Returned(Admitted(job, name, t.endpoint, t.allowed, t.endpoint.usePilot, t.endpoint.isInteractive,
                        arguments, dataset))
  }

  /** Recording an admission: the slot is overwritten and the job leaves
      the pending map. */
  function Record(s: State, t: Target, tq: nat, entry: Admitted): (r: State)
    ensures Keeps(s, r)
    ensures r.log == s.log + [Admission(t.director, t.name, entry)]
    ensures forall q, j :: InPending(r.pending, q, j) <==> InPending(s.pending, q, j) && !(q == tq && j == entry.jobId)
  {
    var r := s.(aggregate := AdmitInto(s.aggregate, t.director, t.name, entry),
                log := s.log + [Admission(t.director, t.name, entry)],
                pending := RemoveJob(s.pending, tq, entry.jobId));
    assert r.log[..|r.log| - 1] == s.log;
    assert r.log[|s.log|].entry.jobId == entry.jobId;
    forall j | j in AdmittedIds(s.log) ensures j in AdmittedIds(r.log) {
      var i :| 0 <= i < |s.log| && s.log[i].entry.jobId == j;
      assert r.log[i] == s.log[i];
    }
    r
  }

  /** Overwriting the remembered dataset changes nothing the cycle's
      invariant is about. */
  lemma DatasetKeeps(s: State, d: string)
    ensures Keeps(s, s.(dataset := d))
    ensures s.(dataset := d).pending == s.pending && s.(dataset := d).log == s.log
  {
  }

  /** Reading a job's JDL and matching it against the endpoint; on "OK" the
      job is admitted. */
  function TryMatch(s: State, svc: Services, t: Target, tq: nat, job: nat, name: string, mode: Mode)
    : (p: Progress)
    ensures Keeps(s, p.state)
    ensures p.state.pulled == s.pulled
    ensures p.flow.Return? ==> false
    ensures p.state.log != s.log ==>
      (p.state.log == s.log + [p.state.log[|s.log|]] && p.state.log[|s.log|].entry.jobId == job)
    ensures forall q, j :: InPending(p.state.pending, q, j) <==>
      InPending(s.pending, q, j) && !(q == tq && j == job && p.state.log != s.log)
  {
    match svc.jdl(job)
    case Err(_) => Progress(s, Raise(KeyError))
    case Ok(arguments) =>
      var m := MatchJob(arguments, t.name, IdentityOf(t.endpoint), svc.inputData(job), svc.replicas, svc.vocab);
      var s1 := s.(dataset := m.dataset);
      DatasetKeeps(s, m.dataset);
      match m.outcome
      case Raised(e) => Progress(s1, Raise(e))
      case Returned(Admit) =>
        (match EntryFor(t, job, name, arguments, m.dataset, mode)
         case Raised(e) => Progress(s1, Raise(e))
         case Returned(entry) =>
           var s2 := Record(s1, t, tq, entry);
           KeepsTransitive(s, s1, s2);
           Progress(s2, Continue))
      case Returned(_) => Progress(s1, Continue)
  }

  /** Opening a task queue's pending dictionary keeps the invariant. */
  lemma EnsureQueueKeeps(s: State, tq: nat)
    ensures Keeps(s, s.(pending := EnsureQueue(s.pending, tq)))
  {
  }

  /** Recording a pulled job as pending keeps the invariant. */
  lemma PullKeeps(s: State, tq: nat, job: nat, name: string)
    ensures Keeps(s, s.(pending := AddJob(s.pending, tq, job, name), pulled := s.pulled + [(tq, job)]))
  {
    var s2 := s.(pending := AddJob(s.pending, tq, job, name), pulled := s.pulled + [(tq, job)]);
    assert forall i :: 0 <= i < |s.pulled| ==> s2.pulled[i] == s.pulled[i];
  }

  /** The loop over the matching task queues: one job pulled per queue,
      recorded as pending, then matched. A failed pull or attribute lookup
      ends the cycle with that error. */
  function FirstPass(s: State, svc: Services, t: Target, tqs: seq<nat>, mode: Mode): (p: Progress)
    ensures Keeps(s, p.state)
    decreases |tqs|
  {
    if |tqs| == 0 then Progress(s, Continue)
    else
      var tq := tqs[0];
      var s1 := s.(pending := EnsureQueue(s.pending, tq));
      EnsureQueueKeeps(s, tq);
      match svc.pull(t.name, tq)
      case Err(m) => Progress(s1, Return(m))
      case Ok(job) =>
        match svc.attributes(job)
        case Err(m) => Progress(s1, Return(m))
        case Ok(attributes) =>
          if "JobName" !in attributes then Progress(s1, Raise(KeyError))
          else
            var name := attributes["JobName"];
            var s2 := s1.(pending := AddJob(s1.pending, tq, job, name), pulled := s1.pulled + [(tq, job)]);
            PullKeeps(s1, tq, job, name);
            var p := TryMatch(s2, svc, t, tq, job, name, mode);
            KeepsTransitive(s, s1, s2);
            KeepsTransitive(s, s2, p.state);
            if p.flow.Continue? then
              var r := FirstPass(p.state, svc, t, tqs[1..], mode);
              KeepsTransitive(s, p.state, r.state);
              r
            else p
  }

  /** The second loop: every job pending before it starts, in order, is
      matched again against the same endpoint. */
  function RetryPass(s: State, svc: Services, t: Target, jobs: seq<(nat, nat, string)>, mode: Mode)
    : (p: Progress)
    ensures Keeps(s, p.state)
    ensures p.state.pulled == s.pulled
    decreases |jobs|
  {
    if |jobs| == 0 then Progress(s, Continue)
    else
      var (tq, job, name) := jobs[0];
      var p := TryMatch(s, svc, t, tq, job, name, mode);
      if p.flow.Continue? then
        var r := RetryPass(p.state, svc, t, jobs[1..], mode);
        KeepsTransitive(s, p.state, r.state);
        r
      else p
  }

  /** `getBigDataJobsByStatusAndEndpoint(status, nameNode)` as the loop
      reads it: through the ledger's status gate, with the vocabulary the
      services carry, as written; through the corrected gate as intended. */
  function CountQuery(svc: Services, status: string, nameNode: string, mode: Mode): (r: Py<Result<nat>>)
    ensures mode == Intended ==> r.Returned?
    ensures mode == Intended && status in Ledger.IntendedInstanceStates ==>
      r == Returned(svc.count(status, nameNode))
    ensures mode == AsWritten && svc.vocab.instanceStates.None? ==> r == Raised(AttributeError)
    ensures mode == AsWritten ==> !(r.Returned? && r.value.Ok?)
  {
    if mode == AsWritten then Ledger.JobsByStatus(svc.vocab.instanceStates, status, svc.count(status, nameNode))
    else Returned(Ledger.JobsByStatusIntended(Ledger.IntendedInstanceStates, status, svc.count(status, nameNode)))
  }

  /** One endpoint of one director: the Submitted count, the Running
      count, then the free slots. */
  function ServeEndpoint(s: State, svc: Services, director: string, name: string, e: Endpoint, mode: Mode)
    : (p: Progress)
    ensures Keeps(s, p.state)
    ensures var sub := CountQuery(svc, "Submitted", e.nameNode, mode);
      sub.Raised? ==> p == Progress(s, Raise(sub.exception))
    ensures var sub := CountQuery(svc, "Submitted", e.nameNode, mode);
      var run := CountQuery(svc, "Running", e.nameNode, mode);
      sub.Returned? && run.Raised? ==> p == Progress(s, Raise(run.exception))
    ensures var sub := CountQuery(svc, "Submitted", e.nameNode, mode);
      var run := CountQuery(svc, "Running", e.nameNode, mode);
      sub.Returned? && run.Returned? && FreeSlots(sub.value, run.value, e.limit).None? ==>
        p == Progress(s, Continue)
    // with room, the task queues are looked up by the endpoint's whole
    // Requirements dictionary, and a failed lookup is returned unchanged
    ensures var sub := CountQuery(svc, "Submitted", e.nameNode, mode);
      var run := CountQuery(svc, "Running", e.nameNode, mode);
      sub.Returned? && run.Returned? && FreeSlots(sub.value, run.value, e.limit).Some?
      && svc.taskQueues(e.requirements).Err? ==>
        p == Progress(s, Return(svc.taskQueues(e.requirements).message))
    ensures p.state.log != s.log ==>
      var sub := CountQuery(svc, "Submitted", e.nameNode, mode);
      var run := CountQuery(svc, "Running", e.nameNode, mode);
      sub.Returned? && run.Returned? && FreeSlots(sub.value, run.value, e.limit).Some?
  {
    var sub := CountQuery(svc, "Submitted", e.nameNode, mode);
    if sub.Raised? then Progress(s, Raise(sub.exception))
    else
      var run := CountQuery(svc, "Running", e.nameNode, mode);
      if run.Raised? then Progress(s, Raise(run.exception))
      else
        match FreeSlots(sub.value, run.value, e.limit)
        case None => Progress(s, Continue)
        case Some(allowed) =>
          match svc.taskQueues(e.requirements)
          case Err(m) => Progress(s, Return(m))
          case Ok(tqs) =>
            var t := Target(director, name, e, allowed);
            var p := FirstPass(s, svc, t, tqs, mode);
            if p.flow.Continue? then
              var r := RetryPass(p.state, svc, t, Flat(p.state.pending), mode);
              KeepsTransitive(s, p.state, r.state);
              r
            else p
  }

  function ServeEndpoints(s: State, svc: Services, director: string, eps: Endpoints, mode: Mode)
    : (p: Progress)
    ensures Keeps(s, p.state)
    decreases |eps|
  {
    if |eps| == 0 then Progress(s, Continue)
    else
      var p := ServeEndpoint(s, svc, director, eps[0].0, eps[0].1, mode);
      if p.flow.Continue? then
        var r := ServeEndpoints(p.state, svc, director, eps[1..], mode);
        KeepsTransitive(s, p.state, r.state);
        r
      else p
  }

  /** The directors in iteration order, each over its registered endpoints. */
  function ServeDirectors(s: State, svc: Services, ds: Directors, mode: Mode): (p: Progress)
    ensures Keeps(s, p.state)
    decreases |ds|
  {
    if |ds| == 0 then Progress(s, Continue)
    else
      var p := ServeEndpoints(s, svc, ds[0].0, ds[0].1.endpoints, mode);
      if p.flow.Continue? then
        var r := ServeDirectors(p.state, svc, ds[1..], mode);
        KeepsTransitive(s, p.state, r.state);
        r
      else p
  }

  /** The arguments the dispatch loop hands to the director's submit
      method. The dataset is the agent's `jobDataset`, which holds whatever
      the last matcher call of the cycle found, as written; as intended it
      is the dataset matched for this job. */
  function RequestFor(endpointName: string, a: Admitted, jobDataset: string, mode: Mode)
    : Director.SubmitRequest
  {
    var e := a.endpoint;
    Director.SubmitRequest(endpointName, a.allowed, e.siteName, e.nameNode, e.software, e.version,
                           e.hll.name, e.hll.version, e.publicIP, e.port, a.jobId, endpointName,
                           a.jobName, e.user, if mode == AsWritten then jobDataset else a.dataset,
                           a.usePilot, a.isInteractive)
  }

  /** One `generateJobAndQueueIt` call: the aggregate slot it serves, the
      arguments, and whether the pool queued it. */
  datatype Attempt = Attempt(director: string, endpointName: string, entry: Admitted,
                             request: Director.SubmitRequest, queued: bool)

  /** Some request of director `d` was refused by its pool. */
  predicate Refused(att: seq<Attempt>, d: string) {
    exists i :: 0 <= i < |att| && att[i].director == d && !att[i].queued
  }

  /** Director `d` as it is after being disabled. */
  function Disabled(ds: Directors, d: string): Option<DirectorState> {
    match Get(ds, d)
    case Some(x) => Some(x.(isEnabled := false))
    case None => None
  }

  function Disable(ds: Directors, d: string): (r: Directors)
    ensures Get(r, d) == Disabled(ds, d)
    ensures forall k :: k != d ==> Get(r, k) == Get(ds, k)
    ensures DistinctKeys(ds) ==> DistinctKeys(r)
  {
    match Get(ds, d)
    case Some(x) => Put(ds, d, x.(isEnabled := false))
    case None => ds
  }

  type Slots = seq<(string, string, Admitted)>

  /** Every attempt serves one of the slots, for a director enabled at the
      start, with the arguments built from the slot's job. */
  ghost predicate AskedFrom(ds: Directors, slots: Slots, att: seq<Attempt>, jobDataset: string, mode: Mode) {
    forall i :: 0 <= i < |att| ==>
      Enabled(ds, att[i].director) && (att[i].director, att[i].endpointName, att[i].entry) in slots
      && att[i].request == RequestFor(att[i].endpointName, att[i].entry, jobDataset, mode)
  }

  /** Nothing is asked of a director after its pool refused. */
  ghost predicate BackPressure(att: seq<Attempt>) {
    forall i, j :: 0 <= i < j < |att| && att[i].director == att[j].director ==> att[i].queued
  }

  ghost predicate OncePerSlot(att: seq<Attempt>) {
    forall i, j :: 0 <= i < j < |att| ==>
      att[i].director != att[j].director || att[i].endpointName != att[j].endpointName
  }

  /** A refusal disables its director, and nothing else changes. */
  ghost predicate DisablesRefused(ds: Directors, after: Directors, att: seq<Attempt>) {
    forall k :: Get(after, k) == if Refused(att, k) then Disabled(ds, k) else Get(ds, k)
  }

  /** Every slot of a director still enabled afterwards was asked. */
  ghost predicate Complete(slots: Slots, after: Directors, att: seq<Attempt>) {
    forall x :: x in slots && Enabled(after, x.0) ==>
      exists i :: 0 <= i < |att| && att[i].director == x.0 && att[i].endpointName == x.1
  }

  ghost predicate DistinctSlots(slots: Slots) {
    forall i, j :: 0 <= i < j < |slots| ==> slots[i].0 != slots[j].0 || slots[i].1 != slots[j].1
  }

  /** The dispatch loop, over the aggregate's slots in iteration order. */
  function DispatchSlots(ds: Directors, slots: Slots, jobDataset: string,
                         enqueue: (string, Director.SubmitRequest) -> bool, mode: Mode)
    : (r: (Directors, seq<Attempt>))
    requires DistinctSlots(slots)
    ensures AskedFrom(ds, slots, r.1, jobDataset, mode)
    ensures BackPressure(r.1)
    ensures OncePerSlot(r.1)
    ensures DisablesRefused(ds, r.0, r.1)
    ensures Complete(slots, r.0, r.1)
    ensures DistinctKeys(ds) ==> DistinctKeys(r.0)
    decreases |slots|
  {
    if |slots| == 0 then (ds, [])
    else
      var (d, e, a) := slots[0];
      assert DistinctSlots(slots[1..]) by {
        forall i, j | 0 <= i < j < |slots[1..]| ensures slots[1..][i].0 != slots[1..][j].0 || slots[1..][i].1 != slots[1..][j].1 {
          assert slots[1..][i] == slots[i + 1] && slots[1..][j] == slots[j + 1];
        }
      }
      if !Enabled(ds, d) then
        var rest := DispatchSlots(ds, slots[1..], jobDataset, enqueue, mode);
        SkipStep(ds, slots, rest.0, rest.1, jobDataset, mode);
        rest
      else
        var request := RequestFor(e, a, jobDataset, mode);
        var queued := enqueue(d, request);
        var ds1 := if queued then ds else Disable(ds, d);
        var rest := DispatchSlots(ds1, slots[1..], jobDataset, enqueue, mode);
        var att := [Attempt(d, e, a, request, queued)] + rest.1;
        AskStep(ds, ds1, slots, rest.0, att, jobDataset, mode);
        (rest.0, att)
  }

  lemma SkipStep(ds: Directors, slots: Slots, after: Directors, att: seq<Attempt>, jobDataset: string, mode: Mode)
    requires |slots| > 0 && !Enabled(ds, slots[0].0)
    requires AskedFrom(ds, slots[1..], att, jobDataset, mode)
    requires DisablesRefused(ds, after, att)
    requires Complete(slots[1..], after, att)
    ensures AskedFrom(ds, slots, att, jobDataset, mode)
    ensures Complete(slots, after, att)
  {
    assert forall x :: x in slots[1..] ==> x in slots;
    assert !Refused(att, slots[0].0);
    assert forall x :: x in slots ==> x == slots[0] || x in slots[1..];
  }

  lemma AskStep(ds: Directors, ds1: Directors, slots: Slots, after: Directors, att: seq<Attempt>,
                jobDataset: string, mode: Mode)
    requires |slots| > 0 && |att| > 0 && DistinctSlots(slots)
    requires Enabled(ds, slots[0].0)
    requires att[0].director == slots[0].0 && att[0].endpointName == slots[0].1 && att[0].entry == slots[0].2
    requires att[0].request == RequestFor(slots[0].1, slots[0].2, jobDataset, mode)
    requires ds1 == if att[0].queued then ds else Disable(ds, slots[0].0)
    requires AskedFrom(ds1, slots[1..], att[1..], jobDataset, mode)
    requires BackPressure(att[1..])
    requires OncePerSlot(att[1..])
    requires DisablesRefused(ds1, after, att[1..])
    requires Complete(slots[1..], after, att[1..])
    ensures AskedFrom(ds, slots, att, jobDataset, mode)
    ensures BackPressure(att)
    ensures OncePerSlot(att)
    ensures DisablesRefused(ds, after, att)
    ensures Complete(slots, after, att)
  {
    var d := slots[0].0;
    var R := att[1..];
    assert forall i :: 0 < i < |att| ==> att[i] == R[i - 1];
    assert forall k :: k != d ==> Get(ds1, k) == Get(ds, k) && Disabled(ds1, k) == Disabled(ds, k);
    AskStepAsked(ds, ds1, slots, att, jobDataset, mode);
    AskStepOrder(ds, ds1, slots, att, jobDataset, mode);
    AskStepRefused(ds, ds1, slots, after, att, jobDataset, mode);
    assert forall x :: x in slots ==> x == slots[0] || x in slots[1..];
    forall x | x in slots && Enabled(after, x.0)
      ensures exists i :: 0 <= i < |att| && att[i].director == x.0 && att[i].endpointName == x.1
    {
      if x != slots[0] {
        var i :| 0 <= i < |R| && R[i].director == x.0 && R[i].endpointName == x.1;
        assert att[i + 1] == R[i];
      }
    }
  }

  lemma AskStepAsked(ds: Directors, ds1: Directors, slots: Slots, att: seq<Attempt>, jobDataset: string, mode: Mode)
    requires |slots| > 0 && |att| > 0 && Enabled(ds, slots[0].0)
    requires att[0].director == slots[0].0 && att[0].endpointName == slots[0].1 && att[0].entry == slots[0].2
    requires att[0].request == RequestFor(slots[0].1, slots[0].2, jobDataset, mode)
    requires ds1 == if att[0].queued then ds else Disable(ds, slots[0].0)
    requires AskedFrom(ds1, slots[1..], att[1..], jobDataset, mode)
    ensures AskedFrom(ds, slots, att, jobDataset, mode)
  {
    forall i | 0 < i < |att|
      ensures Enabled(ds, att[i].director) && (att[i].director, att[i].endpointName, att[i].entry) in slots
    {
      assert att[i] == att[1..][i - 1];
      assert forall x :: x in slots[1..] ==> x in slots;
    }
  }

  lemma AskStepOrder(ds: Directors, ds1: Directors, slots: Slots, att: seq<Attempt>, jobDataset: string, mode: Mode)
    requires |slots| > 0 && |att| > 0 && DistinctSlots(slots)
    requires att[0].director == slots[0].0 && att[0].endpointName == slots[0].1
    requires ds1 == if att[0].queued then ds else Disable(ds, slots[0].0)
    requires AskedFrom(ds1, slots[1..], att[1..], jobDataset, mode)
    requires BackPressure(att[1..])
    requires OncePerSlot(att[1..])
    ensures BackPressure(att)
    ensures OncePerSlot(att)
  {
    var R := att[1..];
    forall j | 0 < j < |att|
      ensures att[j].director == att[0].director ==> att[0].queued
      ensures att[j].director != att[0].director || att[j].endpointName != att[0].endpointName
    {
      assert att[j] == R[j - 1];
      var x := (R[j - 1].director, R[j - 1].endpointName, R[j - 1].entry);
      var k :| 0 <= k < |slots[1..]| && slots[1..][k] == x;
      assert slots[k + 1] == x;
    }
    forall i, j | 0 < i < j < |att|
      ensures att[i].director == att[j].director ==> att[i].queued
      ensures att[i].director != att[j].director || att[i].endpointName != att[j].endpointName
    {
      assert att[i] == R[i - 1] && att[j] == R[j - 1];
    }
  }

  lemma AskStepRefused(ds: Directors, ds1: Directors, slots: Slots, after: Directors, att: seq<Attempt>,
                       jobDataset: string, mode: Mode)
    requires |slots| > 0 && |att| > 0 && Enabled(ds, slots[0].0)
    requires att[0].director == slots[0].0
    requires ds1 == if att[0].queued then ds else Disable(ds, slots[0].0)
    requires AskedFrom(ds1, slots[1..], att[1..], jobDataset, mode)
    requires DisablesRefused(ds1, after, att[1..])
    ensures DisablesRefused(ds, after, att)
  {
    var d := slots[0].0;
    var R := att[1..];
    JoinRefused([att[0]], R);
    assert [att[0]] + R == att;
    assert Refused([att[0]], d) <==> !att[0].queued by {
      assert [att[0]][0] == att[0];
    }
    assert forall k :: k != d ==> !Refused([att[0]], k);
    if !att[0].queued {
      assert !Enabled(ds1, d);
      assert !Refused(R, d);
    }
    assert forall k :: k != d ==> Get(ds1, k) == Get(ds, k) && Disabled(ds1, k) == Disabled(ds, k);
  }

  lemma JoinRefused(F: seq<Attempt>, R: seq<Attempt>)
    ensures forall k :: Refused(F + R, k) <==> Refused(F, k) || Refused(R, k)
  {
    var att := F + R;
    forall k ensures Refused(att, k) ==> Refused(F, k) || Refused(R, k) {
      if Refused(att, k) {
        var i :| 0 <= i < |att| && att[i].director == k && !att[i].queued;
        if i >= |F| {
          assert R[i - |F|] == att[i];
        }
      }
    }
    forall k ensures Refused(F, k) || Refused(R, k) ==> Refused(att, k) {
      if Refused(R, k) {
        var i :| 0 <= i < |R| && R[i].director == k && !R[i].queued;
        assert att[i + |F|] == R[i];
      } else if Refused(F, k) {
        var i :| 0 <= i < |F| && F[i].director == k && !F[i].queued;
        assert att[i] == F[i];
      }
    }
  }

  lemma InGet<K, V>(d: seq<(K, V)>, k: K, v: V)
    requires DistinctKeys(d)
    ensures (k, v) in d <==> Get(d, k) == Some(v)
  {
    if (k, v) in d {
      var i :| 0 <= i < |d| && d[i] == (k, v);
      GetIndex(d, i);
    }
    if Get(d, k) == Some(v) {
      var i :| 0 <= i < |d| && d[i].0 == k;
      GetIndex(d, i);
      assert d[i] == (k, v);
    }
  }

  lemma FlatCons(agg: Aggregate)
    requires |agg| > 0 && AggregateWellFormed(agg)
    ensures Flat(agg) == Row(agg[0].0, agg[0].1) + Flat(agg[1..])
    ensures AggregateWellFormed(agg[1..])
    ensures agg[0].0 !in Keys(agg[1..])
    ensures forall x :: x in Flat(agg[1..]) ==> x.0 in Keys(agg[1..])
  {
    assert AggregateWellFormed(agg[1..]) by {
      forall i | 0 <= i < |agg[1..]| ensures DistinctKeys(agg[1..][i].1) {
        assert agg[1..][i] == agg[i + 1];
      }
    }
    assert agg[0].0 !in Keys(agg[1..]) by {
      forall i | 0 <= i < |agg[1..]| ensures agg[1..][i].0 != agg[0].0 {
        assert agg[1..][i] == agg[i + 1];
      }
    }
    forall x | x in Flat(agg[1..]) ensures x.0 in Keys(agg[1..]) {
      var i :| 0 <= i < |agg[1..]| && agg[1..][i].0 == x.0 && (x.1, x.2) in agg[1..][i].1;
    }
  }

  lemma RowMembership(d: string, inner: seq<(string, Admitted)>, d': string, e: string, a: Admitted)
    requires DistinctKeys(inner)
    ensures (d', e, a) in Row(d, inner) <==> d' == d && Get(inner, e) == Some(a)
  {
    InGet(inner, e, a);
    if (e, a) in inner && d' == d {
      var i :| 0 <= i < |inner| && inner[i] == (e, a);
      assert Row(d, inner)[i] == (d, e, a);
    }
  }

  /** The dispatch loop meets exactly the aggregate's slots... */
  lemma {:induction false} FlatMembership(agg: Aggregate)
    requires AggregateWellFormed(agg)
    ensures forall d, e, a :: (d, e, a) in Flat(agg) <==> Slot(agg, d, e) == Some(a)
    decreases |agg|
  {
    if |agg| > 0 {
      FlatCons(agg);
      FlatMembership(agg[1..]);
      forall d, e, a ensures (d, e, a) in Flat(agg) <==> Slot(agg, d, e) == Some(a) {
        RowMembership(agg[0].0, agg[0].1, d, e, a);
      }
    }
  }

  /** ... each once. */
  lemma {:induction false} FlatDistinct(agg: Aggregate)
    requires AggregateWellFormed(agg)
    ensures DistinctSlots(Flat(agg))
    decreases |agg|
  {
    if |agg| > 0 {
      FlatCons(agg);
      FlatDistinct(agg[1..]);
      var row: Slots, rest: Slots := Row(agg[0].0, agg[0].1), Flat(agg[1..]);
      var all: Slots := row + rest;
      forall i, j | 0 <= i < j < |all| ensures all[i].0 != all[j].0 || all[i].1 != all[j].1 {
        if j < |row| {
          assert agg[0].1[i].0 != agg[0].1[j].0;
        } else if i < |row| {
          assert all[j] in rest;
        } else {
          assert all[i] == rest[i - |row|] && all[j] == rest[j - |row|];
        }
      }
    }
  }

  /** The dispatch loop over the aggregate. */
  function Dispatch(ds: Directors, agg: Aggregate, jobDataset: string,
                    enqueue: (string, Director.SubmitRequest) -> bool, mode: Mode)
    : (r: (Directors, seq<Attempt>))
    requires AggregateWellFormed(agg)
    // only directors enabled at the start are asked, each for the job in one of its slots
    ensures forall i :: 0 <= i < |r.1| ==>
      Enabled(ds, r.1[i].director) && Slot(agg, r.1[i].director, r.1[i].endpointName) == Some(r.1[i].entry)
      && r.1[i].request == RequestFor(r.1[i].endpointName, r.1[i].entry, jobDataset, mode)
    ensures BackPressure(r.1) && OncePerSlot(r.1)
    ensures DisablesRefused(ds, r.0, r.1)
    ensures DistinctKeys(ds) ==> DistinctKeys(r.0)
    // every slot of a director that stays enabled is asked
    ensures forall d, e :: Slot(agg, d, e).Some? && Enabled(r.0, d) ==>
      exists i :: 0 <= i < |r.1| && r.1[i].director == d && r.1[i].endpointName == e
  {
    FlatMembership(agg);
    FlatDistinct(agg);
    var r := DispatchSlots(ds, Flat(agg), jobDataset, enqueue, mode);
    assert forall d, e :: Slot(agg, d, e).Some? ==> (d, e, Slot(agg, d, e).value) in Flat(agg);
    r
  }

  /** The outcome of a cycle: the agent's directors and pools, the working
      state (whose `pending` and `dataset` the agent keeps for the next
      cycle), the dispatch attempts and how `execute` ended. */
  datatype Outcome = Outcome(agent: Agent, state: State, attempts: seq<Attempt>, flow: Flow)

  /** `execute`: reconcile the submit pools, serve every endpoint of every
      director, then dispatch the aggregate. An error result of the task
      queue or the job database ends the cycle before the dispatch. */
  function Cycle(a: Agent, pending: Pending, jobDataset: string, submitPools: seq<string>,
                 poolOption: string -> Option<string>, configure: string -> Py<Endpoints>,
                 svc: Services, enqueue: (string, Director.SubmitRequest) -> bool, mode: Mode)
    : (o: Outcome)
    requires WellFormed(a)
    ensures WellFormed(o.agent)
    // a job pending before the cycle, or pulled in it, is pending after it or was admitted in it
    ensures forall tq, j :: InPending(pending, tq, j) ==>
      InPending(o.state.pending, tq, j) || j in AdmittedIds(o.state.log)
    ensures forall i :: 0 <= i < |o.state.pulled| ==>
      Accounted(o.state, o.state.pulled[i].0, o.state.pulled[i].1)
    // the aggregate keeps the last job admitted per endpoint, and that is the job dispatched
    ensures AggregateIsLastAdmission(o.state)
    ensures forall i :: 0 <= i < |o.attempts| ==>
      LastFor(o.state.log, o.attempts[i].director, o.attempts[i].endpointName) == Some(o.attempts[i].entry)
      && o.attempts[i].request.jobId == o.attempts[i].entry.jobId
      && o.attempts[i].request.jobName == o.attempts[i].entry.jobName
    ensures BackPressure(o.attempts) && OncePerSlot(o.attempts)
    // the dataset sent with each job
    ensures mode == AsWritten ==> forall i :: 0 <= i < |o.attempts| ==>
      o.attempts[i].request.dataset == o.state.dataset
    ensures mode == Intended ==> forall i :: 0 <= i < |o.attempts| ==>
      o.attempts[i].request.dataset == o.attempts[i].entry.dataset
    ensures !o.flow.Continue? ==> o.attempts == []
    // a raise in the reconciliation ends the cycle with the agent as far as the reconciliation got
    ensures var c := CheckSubmitPools(a, submitPools, poolOption, configure, mode);
      c.1.Raised? ==> o.agent == c.0 && o.flow == Raise(c.1.exception) && o.state.log == []
    // otherwise every configured submit pool still has its director afterwards
    ensures var c := CheckSubmitPools(a, submitPools, poolOption, configure, mode);
      c.1.Returned? ==> forall k :: k in submitPools ==> k in Keys(o.agent.directors)
  {
    var start := State(pending, [], [], [], jobDataset);
    var (a1, checked) := CheckSubmitPools(a, submitPools, poolOption, configure, mode);
    match checked
    case Raised(e) => Outcome(a1, start, [], Raise(e))
    case Returned(_) =>
      var p := ServeDirectors(start, svc, a1.directors, mode);
      FromFreshStart(start, p.state);
      if !p.flow.Continue? then Outcome(a1, p.state, [], p.flow)
      else
        var (ds, attempts) := Dispatch(a1.directors, p.state.aggregate, p.state.dataset, enqueue, mode);
        DispatchKeepsWellFormed(a1, ds, attempts);
        DispatchedAreLastAdmitted(p.state, attempts, mode);
        Outcome(a1.(directors := ds), p.state, attempts, Continue)
  }

  /** What a cycle keeps, from a start with nothing admitted or pulled. */
  lemma FromFreshStart(s0: State, s: State)
    requires s0.aggregate == [] && s0.log == [] && s0.pulled == []
    requires Keeps(s0, s)
    ensures forall tq, j :: InPending(s0.pending, tq, j) ==> InPending(s.pending, tq, j) || j in AdmittedIds(s.log)
    ensures forall i :: 0 <= i < |s.pulled| ==> Accounted(s, s.pulled[i].0, s.pulled[i].1)
    ensures AggregateIsLastAdmission(s) && AggregateWellFormed(s.aggregate)
  {
    assert AggregateIsLastAdmission(s0);
    forall tq, j | InPending(s0.pending, tq, j) ensures Accounted(s, tq, j) {
      assert Accounted(s0, tq, j);
    }
  }

  lemma DispatchKeepsWellFormed(a: Agent, ds: Directors, att: seq<Attempt>)
    requires WellFormed(a) && DisablesRefused(a.directors, ds, att) && DistinctKeys(ds)
    ensures WellFormed(a.(directors := ds))
  {
    forall k | k in Keys(ds) ensures Get(ds, k).value.pool in a.pools {
      assert Get(a.directors, k).Some?;
    }
  }

  lemma DispatchedAreLastAdmitted(s: State, att: seq<Attempt>, mode: Mode)
    requires AggregateIsLastAdmission(s)
    requires forall i :: 0 <= i < |att| ==>
      Slot(s.aggregate, att[i].director, att[i].endpointName) == Some(att[i].entry)
      && att[i].request == RequestFor(att[i].endpointName, att[i].entry, s.dataset, mode)
    ensures forall i :: 0 <= i < |att| ==>
      LastFor(s.log, att[i].director, att[i].endpointName) == Some(att[i].entry)
      && att[i].request.jobId == att[i].entry.jobId && att[i].request.jobName == att[i].entry.jobName
    ensures mode == AsWritten ==> forall i :: 0 <= i < |att| ==> att[i].request.dataset == s.dataset
    ensures mode == Intended ==> forall i :: 0 <= i < |att| ==> att[i].request.dataset == att[i].entry.dataset
  {
  }

  /** The admission of index `k` is the last for its slot. */
  lemma {:induction false} LastForAt(log: seq<Admission>, k: nat)
    requires k < |log|
    requires forall j :: k < j < |log| ==>
      log[j].director != log[k].director || log[j].endpointName != log[k].endpointName
    ensures LastFor(log, log[k].director, log[k].endpointName) == Some(log[k].entry)
    decreases |log|
  {
    if k < |log| - 1 {
      var init := log[..|log| - 1];
      assert forall j :: k < j < |init| ==> init[j] == log[j];
      LastForAt(init, k);
    }
  }

  /** When two jobs are admitted for the same endpoint in a cycle, the
      slot holds the later one: the earlier job has already left the
      pending map and is not dispatched. */
  lemma SlotHoldsLastAdmission(s: State, k: nat)
    requires AggregateIsLastAdmission(s) && k < |s.log|
    requires forall j :: k < j < |s.log| ==>
      s.log[j].director != s.log[k].director || s.log[j].endpointName != s.log[k].endpointName
    ensures Slot(s.aggregate, s.log[k].director, s.log[k].endpointName) == Some(s.log[k].entry)
  {
    LastForAt(s.log, k);
  }

  /** A job the matcher admits is recorded in its endpoint's slot and
      leaves the pending map. As written, building the slot reads the
      endpoint's UsePilot, which the registry never holds: the cycle raises
      KeyError instead. */
  lemma AdmissionRecorded(s: State, svc: Services, t: Target, tq: nat, job: nat, name: string, mode: Mode)
    requires svc.jdl(job).Ok?
    requires MatchJob(svc.jdl(job).value, t.name, IdentityOf(t.endpoint), svc.inputData(job), svc.replicas,
                      svc.vocab).outcome == Returned(Admit)
    ensures var p := TryMatch(s, svc, t, tq, job, name, mode);
      mode == Intended ==>
        p.flow == Continue && !InPending(p.state.pending, tq, job)
        && Slot(p.state.aggregate, t.director, t.name).Some?
        && Slot(p.state.aggregate, t.director, t.name).value.jobId == job
    ensures var p := TryMatch(s, svc, t, tq, job, name, mode);
      mode == AsWritten && t.endpoint.usePilot.None? ==>
        p.flow == Raise(KeyError) && p.state.log == s.log && p.state.aggregate == s.aggregate
  {
  }

  /** With the ledger's own vocabulary the first count of every endpoint
      raises, so serving the directors admits nothing: the cycle either
      raises at its first endpoint or has no endpoint to serve. */
  lemma {:induction false} AsWrittenServeAdmitsNothing(s: State, svc: Services, ds: Directors)
    requires svc.vocab.instanceStates.None?
    ensures var p := ServeDirectors(s, svc, ds, AsWritten);
      p.state == s && (p.flow.Continue? || p.flow == Raise(AttributeError))
    decreases |ds|
  {
    if |ds| > 0 {
      var eps := ds[0].1.endpoints;
      if |eps| > 0 {
        var p := ServeEndpoint(s, svc, ds[0].0, eps[0].0, eps[0].1, AsWritten);
        assert p == Progress(s, Raise(AttributeError));
      } else {
        AsWrittenServeAdmitsNothing(s, svc, ds[1..]);
      }
    }
  }

  /** As written no cycle dispatches a job: the status gate in front of the
      endpoint counts reads a vocabulary the ledger never defines. */
  lemma AsWrittenCycleSubmitsNothing(a: Agent, pending: Pending, jobDataset: string, submitPools: seq<string>,
                                     poolOption: string -> Option<string>, configure: string -> Py<Endpoints>,
                                     svc: Services, enqueue: (string, Director.SubmitRequest) -> bool)
    requires WellFormed(a) && svc.vocab == Ledger.AsWrittenVocabularies
    ensures var o := Cycle(a, pending, jobDataset, submitPools, poolOption, configure, svc, enqueue, AsWritten);
      o.attempts == [] && o.state.log == [] && o.state.pending == pending
  {
    var start := State(pending, [], [], [], jobDataset);
    var (a1, checked) := CheckSubmitPools(a, submitPools, poolOption, configure, AsWritten);
    if checked.Returned? {
      AsWrittenServeAdmitsNothing(start, svc, a1.directors);
    }
  }
}
