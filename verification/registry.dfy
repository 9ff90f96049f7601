/** The director's endpoint registry (`configure`, `reloadConfiguration` and
    `configureFromSection` of SoftBigDataDirector).

    The registry maps endpoint names to the endpoint records copied from
    the endpoint definitions the ledger hands out. Loading a section is a
    fold over the names its RunningEndPoints option requests.
 */
module Registry {
  import opened Base
  import opened Text
  import opened Assoc

  datatype Hll = Hll(name: string, version: string)

  /** The Requirements section of a definition: its options as text. */
  datatype Requirements = Requirements(options: seq<(string, string)>)

  /** The Requirements dictionary of a copied endpoint, as the task queue
      lookup receives it: every option of the section as it came, except
      CPUTime, which is converted to an integer. */
  datatype Criteria = Criteria(others: seq<(string, string)>, cpuTime: int)

  /** An endpoint definition as the endpoint lookup returns it: any option
      may be missing; numbers arrive as text. */
  datatype Definition = Definition(
    nameNode: Option<string>, port: Option<string>, siteName: Option<string>,
    software: Option<string>, version: Option<string>, hll: Option<Hll>,
    limit: Option<string>, url: Option<string>, user: Option<string>,
    publicIP: Option<string>, requirements: Option<Requirements>,
    usePilot: Option<string>, isInteractive: Option<string>)

  /** A copied endpoint. `usePilot` and `isInteractive` are None where the
      copy does not carry them over. */
  datatype Endpoint = Endpoint(
    nameNode: string, port: int, siteName: string, software: string, version: string,
    limit: int, url: string, user: string, publicIP: string, hll: Hll,
    requirements: Criteria, usePilot: Option<string>, isInteractive: Option<string>)

  /** The registry: endpoint names in insertion order. */
  type Endpoints = seq<(string, Endpoint)>

  /** The nine options the copy checks for before copying. */
  predicate HasRequiredOptions(d: Definition) {
    d.nameNode.Some? && d.port.Some? && d.siteName.Some? && d.software.Some?
    && d.version.Some? && d.hll.Some? && d.limit.Some? && d.url.Some? && d.publicIP.Some?
  }

  predicate IsInt(s: string) {
    PyInt(s).Returned?
  }

  /** Everything the copy reads is present and every number parses. */
  predicate Copyable(d: Definition) {
    HasRequiredOptions(d) && d.user.Some? && d.requirements.Some?
    && Get(d.requirements.value.options, "CPUTime").Some?
    && IsInt(d.port.value) && IsInt(d.limit.value) && IsInt(Get(d.requirements.value.options, "CPUTime").value)
  }

  /** `int(d[option])`: KeyError when the option is missing, ValueError
      when it is not a number. */
  function ReadInt(option: Option<string>): (r: Py<int>)
    ensures r.Returned? <==> option.Some? && IsInt(option.value)
    ensures r.Raised? ==> r.exception == KeyError || r.exception == ValueError
    ensures r.Returned? ==> r == PyInt(option.value)
  {
    var text :- Need(option);
    PyInt(text)
  }

  /** The copy as written: the option check only logs, then every option is
      read in turn, so a missing one raises KeyError and a non-numeric
      number raises ValueError. UsePilot and IsInteractive are not copied. */
  function CopyEndpoint(d: Definition): (r: Py<Endpoint>)
    ensures r.Returned? <==> Copyable(d)
    ensures !HasRequiredOptions(d) ==> r.Raised?
    ensures r.Raised? ==> r.exception == KeyError || r.exception == ValueError
    ensures r.Returned? ==>
      var e := r.value;
      Some(e.nameNode) == d.nameNode && Some(e.siteName) == d.siteName
      && Some(e.software) == d.software && Some(e.version) == d.version
      && Some(e.hll) == d.hll && Some(e.url) == d.url && Some(e.user) == d.user
      && Some(e.publicIP) == d.publicIP
      && Returned(e.port) == PyInt(d.port.value) && Returned(e.limit) == PyInt(d.limit.value)
      && Returned(e.requirements.cpuTime) == PyInt(Get(d.requirements.value.options, "CPUTime").value)
      && (forall k :: k != "CPUTime" ==> Get(e.requirements.others, k) == Get(d.requirements.value.options, k))
      && Get(e.requirements.others, "CPUTime").None?
      && e.usePilot.None? && e.isInteractive.None?
  {
    var nameNode :- Need(d.nameNode);
    var port :- ReadInt(d.port);
    var siteName :- Need(d.siteName);
    var software :- Need(d.software);
    var version :- Need(d.version);
    var limit :- ReadInt(d.limit);
    var url :- Need(d.url);
    var user :- Need(d.user);
    var publicIP :- Need(d.publicIP);
    var hll :- Need(d.hll);
    var requirements :- Need(d.requirements);
    var cpuTime :- ReadInt(Get(requirements.options, "CPUTime"));
    var criteria := Criteria(Remove(requirements.options, "CPUTime"), cpuTime);
    Returned(Endpoint(nameNode, port, siteName, software, version, limit, url, user,
                      publicIP, hll, criteria, None, None))
  }

  /** One copy step: None means the endpoint is skipped. As written, the
      option check only logs and UsePilot / IsInteractive are not copied;
      as intended, a definition that lacks a required option is skipped and
      both are carried over. */
  function Copy(d: Definition, mode: Mode): (r: Py<Option<Endpoint>>)
    ensures mode == Intended && !HasRequiredOptions(d) ==> r == Returned(None)
    ensures mode == AsWritten ==> r.Returned? ==> r.value.Some?
    ensures r.Returned? && r.value.Some? ==>
      Copyable(d) && r.value.value.nameNode == d.nameNode.value
    ensures mode == Intended && r.Returned? && r.value.Some? ==>
      r.value.value.usePilot == d.usePilot && r.value.value.isInteractive == d.isInteractive
  {
    match mode
    case AsWritten =>
      var e :- CopyEndpoint(d);
      Returned(Some(e))
    case Intended =>
      if !HasRequiredOptions(d) then Returned(None)
      else
        var e :- CopyEndpoint(d);
        Returned(Some(e.(usePilot := d.usePilot, isInteractive := d.isInteractive)))
  }

  /** The outcome of loading one section: the registry, and the lookup error
      that ended the loop early, if any (the caller ignores it). */
  datatype Loaded = Loaded(endpoints: Endpoints, error: Option<string>)

  /** Every name in the registry maps to the copy of its definition. */
  predicate CopiedFrom(reg: Endpoints, fetch: string -> Result<Definition>, mode: Mode) {
    forall k :: k in Keys(reg) ==>
      fetch(k).Ok? && Copy(fetch(k).value, mode) == Returned(Get(reg, k))
  }

  /** `configureFromSection` over the requested names: a name already in
      the registry is skipped; a failed lookup returns at once; a copied
      definition is added. */
  function LoadSection(reg: Endpoints, requested: seq<string>,
                       fetch: string -> Result<Definition>, mode: Mode): (r: Py<Loaded>)
    ensures r.Returned? ==> forall k :: k in Keys(reg) ==> Get(r.value.endpoints, k) == Get(reg, k)
    ensures r.Returned? ==> Keys(reg) <= Keys(r.value.endpoints)
    ensures r.Returned? ==> forall k :: k in Keys(r.value.endpoints) && k !in Keys(reg) ==>
      k in requested && fetch(k).Ok? && Copy(fetch(k).value, mode) == Returned(Get(r.value.endpoints, k))
    ensures r.Returned? && DistinctKeys(reg) ==> DistinctKeys(r.value.endpoints)
    ensures r.Returned? && r.value.error.Some? ==>
      exists i :: 0 <= i < |requested| && requested[i] !in Keys(reg) && fetch(requested[i]).Err?
        && Keys(r.value.endpoints) <= Keys(reg) + Before(requested, i)
    decreases |requested|
  {
    if |requested| == 0 then Returned(Loaded(reg, None))
    else
      var name := requested[0];
      if name in Keys(reg) then
        var r := LoadSection(reg, requested[1..], fetch, mode);
        ShiftedSet(requested);
        r
      else
        match fetch(name)
        case Err(m) => Returned(Loaded(reg, Some(m)))
        case Ok(d) =>
          var copied :- Copy(d, mode);
          match copied
          case None =>
            var r := LoadSection(reg, requested[1..], fetch, mode);
            ShiftedSet(requested);
            r
          case Some(e) =>
            var next := Put(reg, name, e);
            var r := LoadSection(next, requested[1..], fetch, mode);
            ShiftedSet(requested);
            r
  }

  /** The names before position `i`. */
  function Before(requested: seq<string>, i: nat): set<string>
    requires i <= |requested|
  {
    set j | 0 <= j < i :: requested[j]
  }

  /** Index bookkeeping for the tail of a list of names. */
  lemma ShiftedSet(requested: seq<string>)
    requires |requested| > 0
    ensures forall i :: 0 <= i < |requested[1..]| ==> requested[1..][i] == requested[i + 1]
    ensures forall i :: 0 <= i <= |requested[1..]| ==>
      Before(requested[1..], i) + {requested[0]} == Before(requested, i + 1)
    ensures forall k :: k in requested[1..] ==> k in requested
  {
    forall i | 0 <= i <= |requested[1..]|
      ensures Before(requested[1..], i) + {requested[0]} == Before(requested, i + 1)
    {
      var a := Before(requested[1..], i) + {requested[0]};
      var b := Before(requested, i + 1);
      forall k | k in a ensures k in b {
        if k != requested[0] {
          var j :| 0 <= j < i && requested[1..][j] == k;
          assert requested[j + 1] == k;
        }
      }
      forall k | k in b ensures k in a {
        var j :| 0 <= j < i + 1 && requested[j] == k;
        if j > 0 {
          assert requested[1..][j - 1] == k;
        }
      }
    }
  }

  /** A failed lookup of a new name ends the section at once: the names
      after it are not looked at and the registry is as before. */
  lemma FetchFailureStops(reg: Endpoints, name: string, rest: seq<string>,
                          fetch: string -> Result<Definition>, mode: Mode)
    requires name !in Keys(reg) && fetch(name).Err?
    ensures LoadSection(reg, [name] + rest, fetch, mode) == Returned(Loaded(reg, Some(fetch(name).message)))
  {
    assert ([name] + rest)[0] == name;
  }

  /** A requested name that is new, whose lookup and copy succeed, and
      before which no new name's lookup fails, is in the registry with its
      copy. */
  lemma {:induction false} LoadSectionComplete(reg: Endpoints, requested: seq<string>,
                                               fetch: string -> Result<Definition>, mode: Mode, i: nat, e: Endpoint)
    requires i < |requested| && requested[i] !in Keys(reg)
    requires forall j :: 0 <= j < i && requested[j] !in Keys(reg) ==> fetch(requested[j]).Ok?
    requires fetch(requested[i]).Ok? && Copy(fetch(requested[i]).value, mode) == Returned(Some(e))
    ensures var r := LoadSection(reg, requested, fetch, mode);
      r.Returned? ==> Get(r.value.endpoints, requested[i]) == Some(e)
    decreases |requested|, 4
  {
    var name := requested[0];
    var rest := requested[1..];
    if i == 0 {
      CompleteAtHead(reg, requested, fetch, mode, e);
    } else if name in Keys(reg) {
      assert LoadSection(reg, requested, fetch, mode) == LoadSection(reg, rest, fetch, mode);
      ShiftedPrefix(reg, reg, requested, fetch, i);
      CompleteThrough(reg, requested, fetch, mode, i, e);
    } else {
      CompleteAfterNew(reg, requested, fetch, mode, i, e);
    }
  }

  /** The name at the head is looked up, copied and put; the rest keeps it. */
  lemma CompleteAtHead(reg: Endpoints, requested: seq<string>, fetch: string -> Result<Definition>, mode: Mode, e: Endpoint)
    requires |requested| > 0 && requested[0] !in Keys(reg)
    requires fetch(requested[0]).Ok? && Copy(fetch(requested[0]).value, mode) == Returned(Some(e))
    ensures var r := LoadSection(reg, requested, fetch, mode);
      r.Returned? ==> Get(r.value.endpoints, requested[0]) == Some(e)
  {
    var next := Put(reg, requested[0], e);
    assert LoadSection(reg, requested, fetch, mode) == LoadSection(next, requested[1..], fetch, mode);
  }

  /** Loading past a new name at the head: what its copy makes of the
      registry the rest is loaded into. */
  lemma LoadPastNew(reg: Endpoints, requested: seq<string>, fetch: string -> Result<Definition>, mode: Mode)
    requires |requested| > 0 && requested[0] !in Keys(reg) && fetch(requested[0]).Ok?
    ensures var c := Copy(fetch(requested[0]).value, mode);
      var r := LoadSection(reg, requested, fetch, mode);
      (c.Raised? ==> r.Raised?)
      && (c == Returned(None) ==> r == LoadSection(reg, requested[1..], fetch, mode))
      && (c.Returned? && c.value.Some? ==>
            r == LoadSection(Put(reg, requested[0], c.value.value), requested[1..], fetch, mode))
  {
  }

  /** The completeness step past a new name at the head. */
  lemma {:induction false} CompleteAfterNew(reg: Endpoints, requested: seq<string>,
                                            fetch: string -> Result<Definition>, mode: Mode, i: nat, e: Endpoint)
    requires 0 < i < |requested| && requested[i] !in Keys(reg) && requested[0] !in Keys(reg)
    requires forall j :: 0 <= j < i && requested[j] !in Keys(reg) ==> fetch(requested[j]).Ok?
    requires fetch(requested[i]).Ok? && Copy(fetch(requested[i]).value, mode) == Returned(Some(e))
    ensures var r := LoadSection(reg, requested, fetch, mode);
      r.Returned? ==> Get(r.value.endpoints, requested[i]) == Some(e)
    decreases |requested|, 3
  {
    var name := requested[0];
    LoadPastNew(reg, requested, fetch, mode);
    var c := Copy(fetch(name).value, mode);
    if c == Returned(None) {
      ShiftedPrefix(reg, reg, requested, fetch, i);
      CompleteThrough(reg, requested, fetch, mode, i, e);
    } else if c.Returned? {
      CompleteAfterPut(reg, requested, fetch, mode, i, e, c.value.value);
    }
  }

  /** The completeness step past a new name at the head that was put with
      the copy `e0`. */
  lemma {:induction false} CompleteAfterPut(reg: Endpoints, requested: seq<string>,
                                            fetch: string -> Result<Definition>, mode: Mode, i: nat, e: Endpoint,
                                            e0: Endpoint)
    requires 0 < i < |requested| && requested[i] !in Keys(reg) && requested[0] !in Keys(reg)
    requires forall j :: 0 <= j < i && requested[j] !in Keys(reg) ==> fetch(requested[j]).Ok?
    requires fetch(requested[i]).Ok? && Copy(fetch(requested[i]).value, mode) == Returned(Some(e))
    requires requested[0] == requested[i] ==> e0 == e
    requires LoadSection(reg, requested, fetch, mode)
      == LoadSection(Put(reg, requested[0], e0), requested[1..], fetch, mode)
    ensures var r := LoadSection(reg, requested, fetch, mode);
      r.Returned? ==> Get(r.value.endpoints, requested[i]) == Some(e)
    decreases |requested|, 2
  {
    var name := requested[0];
    var next := Put(reg, name, e0);
    if name == requested[i] {
      PutKept(next, requested[1..], fetch, mode, name, e0);
    } else {
      CompleteThroughLarger(reg, next, requested, fetch, mode, i, e);
    }
  }

  /** A name put before the rest of the section is loaded keeps its copy. */
  lemma PutKept(next: Endpoints, rest: seq<string>, fetch: string -> Result<Definition>, mode: Mode,
                name: string, e0: Endpoint)
    requires Get(next, name) == Some(e0)
    ensures var r := LoadSection(next, rest, fetch, mode);
      r.Returned? ==> Get(r.value.endpoints, name) == Some(e0)
  {
  }

  /** The completeness step when the head leaves a registry `next` that
      holds at least the names of `reg`. */
  lemma {:induction false} CompleteThroughLarger(reg: Endpoints, next: Endpoints, requested: seq<string>,
                                                 fetch: string -> Result<Definition>, mode: Mode, i: nat, e: Endpoint)
    requires 0 < i < |requested| && requested[i] !in Keys(next) && Keys(reg) <= Keys(next)
    requires forall j :: 0 < j < i && requested[j] !in Keys(reg) ==> fetch(requested[j]).Ok?
    requires fetch(requested[i]).Ok? && Copy(fetch(requested[i]).value, mode) == Returned(Some(e))
    ensures var r := LoadSection(next, requested[1..], fetch, mode);
      r.Returned? ==> Get(r.value.endpoints, requested[i]) == Some(e)
    decreases |requested|, 1
  {
    ShiftedPrefix(reg, next, requested, fetch, i);
    CompleteThrough(next, requested, fetch, mode, i, e);
  }

  /** The completeness step when the head leaves the registry `next` for
      the rest, without the name at `i`. */
  lemma {:induction false} CompleteThrough(next: Endpoints, requested: seq<string>,
                                           fetch: string -> Result<Definition>, mode: Mode, i: nat, e: Endpoint)
    requires 0 < i < |requested| && requested[i] !in Keys(next)
    requires forall j :: 0 <= j < i - 1 && requested[1..][j] !in Keys(next) ==> fetch(requested[1..][j]).Ok?
    requires fetch(requested[i]).Ok? && Copy(fetch(requested[i]).value, mode) == Returned(Some(e))
    ensures var r := LoadSection(next, requested[1..], fetch, mode);
      r.Returned? ==> Get(r.value.endpoints, requested[i]) == Some(e)
    decreases |requested|, 0
  {
    var rest := requested[1..];
    assert rest[i - 1] == requested[i];
    LoadSectionComplete(next, rest, fetch, mode, i - 1, e);
  }

  /** The lookups before position `i` of the names, shifted to the tail
      loaded into a larger registry. */
  lemma ShiftedPrefix(reg: Endpoints, next: Endpoints, requested: seq<string>, fetch: string -> Result<Definition>, i: nat)
    requires 0 < i <= |requested| && Keys(reg) <= Keys(next)
    requires forall j :: 0 < j < i && requested[j] !in Keys(reg) ==> fetch(requested[j]).Ok?
    ensures forall j :: 0 <= j < i - 1 && requested[1..][j] !in Keys(next) ==> fetch(requested[1..][j]).Ok?
  {
    forall j | 0 <= j < i - 1 && requested[1..][j] !in Keys(next) ensures fetch(requested[1..][j]).Ok? {
      assert requested[1..][j] == requested[j + 1];
    }
  }

  /** The names a section requests: its RunningEndPoints option, or the
      names already loaded when the option is absent. */
  function Requested(option: Option<seq<string>>, current: Endpoints): (names: seq<string>)
    ensures option.Some? ==> names == option.value
    ensures option.None? ==> forall k :: k in names <==> k in Keys(current)
  {
    match option
    case Some(names) => names
    case None => KeySeq(current)
  }

  /** Requesting only names the registry already holds changes nothing, so
      a section without a RunningEndPoints option is a no-op. */
  lemma {:induction false} KnownNamesNoOp(reg: Endpoints, requested: seq<string>,
                                          fetch: string -> Result<Definition>, mode: Mode)
    requires forall k :: k in requested ==> k in Keys(reg)
    ensures LoadSection(reg, requested, fetch, mode) == Returned(Loaded(reg, None))
    decreases |requested|
  {
    if |requested| > 0 {
      assert requested[0] in requested;
      assert forall k :: k in requested[1..] ==> k in requested;
      KnownNamesNoOp(reg, requested[1..], fetch, mode);
    }
  }

  lemma AbsentOptionNoOp(reg: Endpoints, fetch: string -> Result<Definition>, mode: Mode)
    ensures LoadSection(reg, Requested(None, reg), fetch, mode) == Returned(Loaded(reg, None))
  {
    KnownNamesNoOp(reg, Requested(None, reg), fetch, mode);
  }

  /** `configure(section, pool)`: the registry starts empty, the base
      section is loaded, then `section + "/" + pool`. Endpoints the base
      section loaded are kept as they are; every endpoint was requested by
      one of the two sections and is the copy of its definition. */
  function Configure(section: string, pool: string, runningOption: string -> Option<seq<string>>,
                     fetch: string -> Result<Definition>, mode: Mode): (r: Py<Endpoints>)
    ensures r.Returned? ==> DistinctKeys(r.value)
    ensures r.Returned? ==> CopiedFrom(r.value, fetch, mode)
    ensures r.Returned? ==> forall k :: k in Keys(r.value) ==>
      k in Requested(runningOption(section), [])
      || (runningOption(section + "/" + pool).Some? && k in runningOption(section + "/" + pool).value)
  {
    var baseNames := Requested(runningOption(section), []);
    var poolOption := runningOption(section + "/" + pool);
    var base :- LoadSection([], baseNames, fetch, mode);
    var pooled :- LoadSection(base.endpoints, Requested(poolOption, base.endpoints), fetch, mode);
    TwoSections(baseNames, poolOption, fetch, mode, base, pooled);
    Returned(pooled.endpoints)
  }

  /** What loading the base section and then the pool section yields. */
  lemma TwoSections(baseNames: seq<string>, poolOption: Option<seq<string>>,
                    fetch: string -> Result<Definition>, mode: Mode, base: Loaded, pooled: Loaded)
    requires LoadSection([], baseNames, fetch, mode) == Returned(base)
    requires LoadSection(base.endpoints, Requested(poolOption, base.endpoints), fetch, mode) == Returned(pooled)
    ensures DistinctKeys(pooled.endpoints)
    ensures CopiedFrom(pooled.endpoints, fetch, mode)
    ensures forall k :: k in Keys(pooled.endpoints) ==> k in baseNames || (poolOption.Some? && k in poolOption.value)
  {
    assert Keys<string, Endpoint>([]) == {};
    assert DistinctKeys<string, Endpoint>([]);
    forall k | k in Keys(pooled.endpoints)
      ensures fetch(k).Ok? && Copy(fetch(k).value, mode) == Returned(Get(pooled.endpoints, k))
      ensures k in baseNames || (poolOption.Some? && k in poolOption.value)
    {
      if k in Keys(base.endpoints) {
        assert Get(pooled.endpoints, k) == Get(base.endpoints, k);
      }
    }
  }

  /** A name the base section requests, or the pool section does, whose
      copy succeeds is in the configured registry with that copy, when no
      lookup of the sections' names fails. */
  lemma ConfigureComplete(section: string, pool: string, runningOption: string -> Option<seq<string>>,
                          fetch: string -> Result<Definition>, mode: Mode, k: string, e: Endpoint)
    requires Configure(section, pool, runningOption, fetch, mode).Returned?
    requires fetch(k).Ok? && Copy(fetch(k).value, mode) == Returned(Some(e))
    requires var baseNames := Requested(runningOption(section), []);
      var poolOption := runningOption(section + "/" + pool);
      (forall n :: n in baseNames ==> fetch(n).Ok?)
      && (k in baseNames || (poolOption.Some? && k in poolOption.value && forall n :: n in poolOption.value ==> fetch(n).Ok?))
    ensures Get(Configure(section, pool, runningOption, fetch, mode).value, k) == Some(e)
  {
    var baseNames := Requested(runningOption(section), []);
    var poolOption := runningOption(section + "/" + pool);
    var base := LoadSection([], baseNames, fetch, mode).value;
    var pooled := LoadSection(base.endpoints, Requested(poolOption, base.endpoints), fetch, mode).value;
    assert Configure(section, pool, runningOption, fetch, mode).value == pooled.endpoints;
    if k in Keys(base.endpoints) {
      assert Get(pooled.endpoints, k) == Get(base.endpoints, k);
      assert Keys<string, Endpoint>([]) == {};
      assert Copy(fetch(k).value, mode) == Returned(Get(base.endpoints, k));
    } else if k in baseNames {
      BaseNameLoaded(baseNames, fetch, mode, k, e);
    } else {
      var i :| 0 <= i < |poolOption.value| && poolOption.value[i] == k;
      LoadSectionComplete(base.endpoints, poolOption.value, fetch, mode, i, e);
    }
  }

  /** A base-section name whose copy succeeds is loaded into the empty
      registry when no lookup of the section fails. */
  lemma BaseNameLoaded(baseNames: seq<string>, fetch: string -> Result<Definition>, mode: Mode, k: string, e: Endpoint)
    requires k in baseNames && forall n :: n in baseNames ==> fetch(n).Ok?
    requires fetch(k).Ok? && Copy(fetch(k).value, mode) == Returned(Some(e))
    ensures var r := LoadSection([], baseNames, fetch, mode);
      r.Returned? ==> Get(r.value.endpoints, k) == Some(e)
  {
    assert Keys<string, Endpoint>([]) == {};
    var i :| 0 <= i < |baseNames| && baseNames[i] == k;
    LoadSectionComplete([], baseNames, fetch, mode, i, e);
  }

  /** The pool section cannot replace what the base section loaded. */
  lemma BaseSectionWins(section: string, pool: string, runningOption: string -> Option<seq<string>>,
                        fetch: string -> Result<Definition>, mode: Mode)
    requires Configure(section, pool, runningOption, fetch, mode).Returned?
    ensures var base := LoadSection([], Requested(runningOption(section), []), fetch, mode);
      base.Returned? && forall k :: k in Keys(base.value.endpoints) ==>
        Get(Configure(section, pool, runningOption, fetch, mode).value, k) == Get(base.value.endpoints, k)
  {
  }

  /** As written, a definition that lacks any required option makes the
      load raise instead of skipping that endpoint. */
  lemma AsWrittenMissingOptionRaises(reg: Endpoints, name: string, rest: seq<string>,
                                     fetch: string -> Result<Definition>)
    requires name !in Keys(reg) && fetch(name).Ok? && !HasRequiredOptions(fetch(name).value)
    ensures LoadSection(reg, [name] + rest, fetch, AsWritten).Raised?
  {
    assert ([name] + rest)[0] == name;
  }

  /** With the intended copy, a definition that lacks a required option is
      skipped and the load goes on with the next name. */
  lemma IntendedMissingOptionSkips(reg: Endpoints, name: string, rest: seq<string>,
                                   fetch: string -> Result<Definition>)
    requires name !in Keys(reg) && fetch(name).Ok? && !HasRequiredOptions(fetch(name).value)
    ensures LoadSection(reg, [name] + rest, fetch, Intended) == LoadSection(reg, rest, fetch, Intended)
  {
    assert ([name] + rest)[0] == name;
    assert ([name] + rest)[1..] == rest;
  }

  /** As written no registered endpoint carries UsePilot or IsInteractive,
      whatever the configuration says; as intended they are the
      configuration's. */
  lemma CopiedPilotOptions(section: string, pool: string, runningOption: string -> Option<seq<string>>,
                           fetch: string -> Result<Definition>, mode: Mode, i: nat)
    requires Configure(section, pool, runningOption, fetch, mode).Returned?
    requires i < |Configure(section, pool, runningOption, fetch, mode).value|
    ensures var reg := Configure(section, pool, runningOption, fetch, mode).value;
      mode == AsWritten ==> reg[i].1.usePilot.None? && reg[i].1.isInteractive.None?
    ensures var reg := Configure(section, pool, runningOption, fetch, mode).value;
      mode == Intended ==>
        (fetch(reg[i].0).Ok? && reg[i].1.usePilot == fetch(reg[i].0).value.usePilot
         && reg[i].1.isInteractive == fetch(reg[i].0).value.isInteractive)
  {
    var reg := Configure(section, pool, runningOption, fetch, mode).value;
    GetIndex(reg, i);
    assert reg[i].0 in Keys(reg);
  }
}
