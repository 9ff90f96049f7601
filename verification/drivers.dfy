/** The submission drivers the driver table instantiates: HadoopV1,
    HadoopV2, HadoopV2Interactive and HiveV1 (`submitNewBigJob`, the
    descriptor `jobWrapper` and `getHadoopJobValue`).

    Downloading the input sandbox, writing the descriptor file and
    fetching the proxy are I/O and are not modelled; what each driver
    derives (paths, names, commands) and how it reads its collaborators'
    answers is. Where a driver reads `['Value']` of a failed DIRAC result,
    `Mode.AsWritten` raises KeyError and `Mode.Intended` returns the
    failure's message.
 */
module Drivers {
  import opened Base
  import opened Text
  import Calls
  import Clients
  import Director

  /** The four properties of the Hadoop job descriptor (`jobWrapper`). */
  datatype Descriptor = Descriptor(inputDir: string, outputDir: string, jobName: string, classpath: string)

  /** HadoopV1 and HadoopV2 stage a job in `/tmp/<id>` (no trailing slash). */
  function StagingDir(id: nat): string {
    "/tmp/" + NatToString(id)
  }

  /** The descriptor file name, `job:<id>.xml`. */
  function DescriptorName(id: nat): string {
    "job:" + NatToString(id) + ".xml"
  }

  /** The job's jar directory, `/tmp/<id>/InputSandbox<id>`. */
  function Classpath(id: nat): string {
    StagingDir(id) + "/InputSandbox" + NatToString(id)
  }

  /** The output directory a descriptor names for a job. */
  function OutputDir(id: nat, jobName: string): string {
    Classpath(id) + "/" + jobName + "_" + NatToString(id)
  }

  /** The job id is the last '_'-separated piece of the output directory
      and the classpath is its directory. */
  lemma OutputDirNamesJob(id: nat, jobName: string)
    ensures Last(Split(OutputDir(id, jobName), '_')) == NatToString(id)
    ensures OutputDir(id, jobName)[..|Classpath(id)|] == Classpath(id)
  {
    NatToStringHasNo(id, '_');
    assert OutputDir(id, jobName) == (Classpath(id) + "/" + jobName) + ['_'] + NatToString(id);
    LastPieceAfterSeparator(Classpath(id) + "/" + jobName, NatToString(id), '_');
  }

  // ---------------------------------------------------------------------
  // HadoopV1
  // ---------------------------------------------------------------------

  /** HadoopV1's `jobWrapper`: the job name is read as '_'-separated
      fields; field 0 names the job and field 5 is the input directory.
      A job name with fewer than six fields raises IndexError. */
  function V1Descriptor(jobName: string, id: nat): (r: Py<Descriptor>)
    ensures r.Raised? <==> |Split(jobName, '_')| < 6
    ensures r.Raised? ==> r.exception == IndexError
    ensures r.Returned? ==>
      '_' !in r.value.jobName && '_' !in r.value.inputDir
      && r.value.classpath == Classpath(id)
      && r.value.outputDir == OutputDir(id, r.value.jobName)
  {
    var fields := Split(jobName, '_');
    if |fields| < 6 then Raised(IndexError)
    else Returned(Descriptor(fields[5], OutputDir(id, fields[0]), fields[0], Classpath(id)))
  }

  /** A job name built from six or more '_'-free fields yields its first
      field as the job name and its sixth as the input directory. */
  lemma V1DescriptorFields(fields: seq<string>, id: nat)
    requires |fields| >= 6
    requires forall i :: 0 <= i < |fields| ==> '_' !in fields[i]
    ensures V1Descriptor(Join(fields, '_'), id)
            == Returned(Descriptor(fields[5], OutputDir(id, fields[0]), fields[0], Classpath(id)))
  {
    SplitJoin(fields, '_');
  }

  /** HadoopV1's `getHadoopJobValue`: the third ' '-separated word of the
      submit output; IndexError when there are fewer than three. */
  function ThirdWord(stdout: string): (r: Py<string>)
    ensures r.Raised? <==> |Split(stdout, ' ')| < 3
    ensures r.Raised? ==> r.exception == IndexError
    ensures r.Returned? ==> ' ' !in r.value
  {
    var words := Split(stdout, ' ');
    if |words| < 3 then Raised(IndexError) else Returned(words[2])
  }

  /** Of space-free words joined by spaces, the third is found. */
  lemma ThirdWordOfWords(words: seq<string>)
    requires |words| >= 3
    requires forall i :: 0 <= i < |words| ==> ' ' !in words[i]
    ensures ThirdWord(Join(words, ' ')) == Returned(words[2])
  {
    SplitJoin(words, ' ');
  }

  /** HadoopV1's `submitNewBigJob`. The descriptor is derived before the
      copy and the submission; `submit` is HadoopV1Client's
      `jobSubmit(tempPath, descriptorName)`. A failed submission, or one
      whose exit code is not 0, is an error, and otherwise the id is the
      third word of the output. As written the failed-submission branch
      builds its error from `returned['Value']`, which a failed result
      lacks. */
  function SubmitV1(jobName: string, id: nat, submit: (string, string) -> Result<Triple>, mode: Mode)
    : (r: Py<Result<string>>)
    ensures |Split(jobName, '_')| < 6 ==> r == Raised(IndexError)
    ensures var answer := submit(StagingDir(id), DescriptorName(id));
      |Split(jobName, '_')| >= 6 ==>
        (answer.Err? && mode == AsWritten ==> r == Raised(KeyError))
        && (answer.Err? && mode == Intended ==> r == Returned(Err(answer.message)))
        && (answer.Ok? && answer.value.exit != 0 ==> r == Returned(Err(ShowTriple(answer.value))))
        && (answer.Ok? && answer.value.exit == 0 ==> (r.Returned? <==> |Split(answer.value.stdout, ' ')| >= 3))
    ensures r.Returned? && r.value.Ok? ==>
      var answer := submit(StagingDir(id), DescriptorName(id));
      answer.Ok? && answer.value.exit == 0 && Returned(r.value.value) == ThirdWord(answer.value.stdout)
  {
    var _ :- V1Descriptor(jobName, id);
    match submit(StagingDir(id), DescriptorName(id))
    case Err(m) => if mode == AsWritten then Raised(KeyError) else Returned(Err(m))
    case Ok(t) =>
      if t.exit != 0 then Returned(Err(ShowTriple(t)))
      else
        var word :- ThirdWord(t.stdout);
        Returned(Ok(word))
  }

  // ---------------------------------------------------------------------
  // HadoopV2
  // ---------------------------------------------------------------------

  /** HadoopV2's `jobWrapper`: the input directory is word 4 of the
      ' '-separated Arguments (IndexError with fewer than five words); the
      job keeps its whole name. */
  function V2Descriptor(jobName: string, arguments: string, id: nat): (r: Py<Descriptor>)
    ensures r.Raised? <==> |Split(arguments, ' ')| < 5
    ensures r.Raised? ==> r.exception == IndexError
    ensures r.Returned? ==>
      ' ' !in r.value.inputDir && r.value.jobName == jobName
      && r.value.classpath == Classpath(id) && r.value.outputDir == OutputDir(id, jobName)
  {
    var words := Split(arguments, ' ');
    if |words| < 5 then Raised(IndexError)
    else Returned(Descriptor(words[4], OutputDir(id, jobName), jobName, Classpath(id)))
  }

  /** The fifth word of the argument string is the input directory. */
  lemma V2DescriptorInput(words: seq<string>, jobName: string, id: nat)
    requires |words| >= 5
    requires forall i :: 0 <= i < |words| ==> ' ' !in words[i]
    ensures V2Descriptor(jobName, Join(words, ' '), id).Returned?
    ensures V2Descriptor(jobName, Join(words, ' '), id).value.inputDir == words[4]
  {
    SplitJoin(words, ' ');
  }

  /** HadoopV2's `getHadoopJobValue`: the last ' '-separated word. */
  function LastWord(stdout: string): (w: string)
    ensures ' ' !in w
    ensures w == stdout || Contains(stdout, [' '] + w)
  {
    var words := Split(stdout, ' ');
    JoinSplit(stdout, ' ');
    if |words| == 1 then Last(words)
    else
      LastJoined(words);
      Last(words)
  }

  /** In a ' '-join of two or more pieces, the last piece follows a space. */
  lemma {:induction false} LastJoined(words: seq<string>)
    requires |words| >= 2
    ensures Contains(Join(words, ' '), [' '] + Last(words))
    decreases |words|
  {
    if |words| == 2 {
      assert Join(words, ' ') == words[0] + ([' '] + Last(words)) + "";
      ContainsInfix(words[0], [' '] + Last(words), "");
    } else {
      LastJoined(words[1..]);
      assert Join(words, ' ') == (words[0] + [' ']) + Join(words[1..], ' ');
      assert Last(words[1..]) == Last(words);
      ContainsAfter(words[0] + [' '], Join(words[1..], ' '), [' '] + Last(words));
    }
  }

  /** A text contained in a suffix is contained in the whole. */
  lemma {:induction false} ContainsAfter(a: string, b: string, needle: string)
    requires needle <= b || Contains(b, needle)
    ensures Contains(a + b, needle)
    decreases |a|
  {
    if |a| == 0 {
      assert a + b == b;
    } else {
      assert (a + b)[1..] == a[1..] + b;
      ContainsAfter(a[1..], b, needle);
    }
  }

  /** The last of space-free words joined by spaces is found. */
  lemma LastWordOfWords(words: seq<string>)
    requires |words| >= 1
    requires forall i :: 0 <= i < |words| ==> ' ' !in words[i]
    ensures LastWord(Join(words, ' ')) == Last(words)
  {
    SplitJoin(words, ' ');
  }

  /** HadoopV2's `submitNewBigJob`. The descriptor comes first; a failed
      job-attribute lookup ends the submission. As written the submission
      then calls HadoopV1Client's two-parameter `jobSubmit` with three
      arguments, which raises TypeError, so no HadoopV2 submission
      returns. As intended `submit(tempPath, descriptorName)` is called, a
      failure is returned and the id is the last word of the output. */
  function SubmitV2(jobName: string, arguments: string, id: nat, jobInfo: Result<()>,
                    submit: (string, string) -> Result<Triple>, mode: Mode)
    : (r: Py<Result<string>>)
    ensures |Split(arguments, ' ')| < 5 ==> r == Raised(IndexError)
    ensures |Split(arguments, ' ')| >= 5 && jobInfo.Err? ==>
      r == (if mode == AsWritten then Raised(KeyError) else Returned(Err(jobInfo.message)))
    ensures mode == AsWritten ==> r.Raised?
    ensures mode == Intended && |Split(arguments, ' ')| >= 5 && jobInfo.Ok? ==>
      var answer := submit(StagingDir(id), DescriptorName(id));
      (answer.Err? ==> r == Returned(Err(answer.message)))
      && (answer.Ok? ==> r.Returned? && r.value.Ok? && ' ' !in r.value.value
                         && r.value.value == Last(Split(answer.value.stdout, ' ')))
  {
    var _ :- V2Descriptor(jobName, arguments, id);
    if jobInfo.Err? then
      if mode == AsWritten then Raised(KeyError) else Returned(Err(jobInfo.message))
    else if mode == AsWritten then
      Calls.Call(Calls.HadoopV2ToClientSubmit).PropagateFailure()
    else
      match submit(StagingDir(id), DescriptorName(id))
      case Err(m) => Returned(Err(m))
      case Ok(t) => Returned(Ok(LastWord(t.stdout)))
  }

  // ---------------------------------------------------------------------
  // HadoopV2Interactive
  // ---------------------------------------------------------------------

  /** The interactive driver stages a job in `/tmp/<id>/`. */
  function InteractiveStaging(id: nat): string {
    "/tmp/" + NatToString(id) + "/"
  }

  /** The executable inside the job's input sandbox. */
  function SandboxJob(id: nat, exe: string): string {
    "InputSandbox" + NatToString(id) + "/" + exe
  }

  /** The interactive job's output file. */
  function InteractiveOutput(id: nat, exe: string): string {
    InteractiveStaging(id) + NatToString(id) + "_" + exe + "_out"
  }

  /** Each of `parts` with a leading '/', concatenated. */
  function Prefixed(parts: seq<string>): string {
    if |parts| == 0 then "" else "/" + parts[0] + Prefixed(parts[1..])
  }

  /** The dataset path the command reads: the '/'-separated components of
      the dataset after the first two, each after a '/'. */
  function DatasetPath(dataset: string): (p: string)
    ensures |Split(dataset, '/')| < 3 ==> p == ""
  {
    var parts := Split(dataset, '/');
    if |parts| < 3 then "" else Prefixed(parts[2..])
  }

  lemma {:induction false} PrefixedIsJoin(parts: seq<string>)
    requires |parts| >= 1
    ensures Prefixed(parts) == "/" + Join(parts, '/')
    decreases |parts|
  {
    if |parts| > 1 {
      PrefixedIsJoin(parts[1..]);
    }
  }

  /** The dataset path drops the first two components: for an LFN
      `/<vo>/<rest>` it is `/<rest>`. */
  lemma DatasetPathDropsTwo(a: string, b: string, rest: string)
    requires '/' !in a && '/' !in b
    ensures DatasetPath(a + "/" + b + "/" + rest) == "/" + rest
  {
    var d := a + "/" + b + "/" + rest;
    assert d == a + ['/'] + (b + ['/'] + rest);
    SplitAfterWord(a, b + ['/'] + rest, '/');
    SplitAfterWord(b, rest, '/');
    var parts := Split(d, '/');
    assert parts == [a, b] + Split(rest, '/');
    assert parts[2..] == Split(rest, '/');
    PrefixedIsJoin(Split(rest, '/'));
    JoinSplit(rest, '/');
  }

  /** The command that runs the job. A job name of several words is a
      program and its argument, with a fixed grep output; a one-word name
      reads the dataset path and writes `<staging>/<name>_<id>`. */
  function InteractiveCommand(id: nat, exe: string, jobName: string, dataset: string): string {
    var words := Split(jobName, ' ');
    var jar := "hadoop jar " + InteractiveStaging(id) + SandboxJob(id, exe);
    if |words| > 1 then
      jar + " " + words[0] + " " + words[1] + " " + InteractiveStaging(id) + "/dataset-USC-a-grep '[and]+'"
    else
      jar + " " + jobName + " " + DatasetPath(dataset) + " " + InteractiveStaging(id) + "/"
      + Without(jobName, ' ') + "_" + NatToString(id)
  }

  /** A one-word job name writes to `<staging>/<name>_<id>`, the last
      word of the command. */
  lemma OneWordCommandOutput(id: nat, exe: string, jobName: string, dataset: string)
    requires ' ' !in jobName
    ensures Last(Split(InteractiveCommand(id, exe, jobName, dataset), ' '))
            == InteractiveStaging(id) + "/" + jobName + "_" + NatToString(id)
  {
    SplitNoSep(jobName, ' ');
    NatToStringHasNo(id, ' ');
    var out := InteractiveStaging(id) + "/" + jobName + "_" + NatToString(id);
    assert ' ' !in out;
    var jar := "hadoop jar " + InteractiveStaging(id) + SandboxJob(id, exe);
    var head := jar + " " + jobName + " " + DatasetPath(dataset);
    assert InteractiveCommand(id, exe, jobName, dataset) == head + [' '] + out;
    LastPieceAfterSeparator(head, out, ' ');
  }

  /** A job name of several words uses only its first two: the rest, and
      the dataset, do not change the command. */
  lemma ManyWordCommandIgnoresRest(id: nat, exe: string, w0: string, w1: string, rest: string,
                                   d1: string, d2: string)
    requires ' ' !in w0 && ' ' !in w1
    ensures InteractiveCommand(id, exe, w0 + " " + w1 + " " + rest, d1)
            == InteractiveCommand(id, exe, w0 + " " + w1, d2)
  {
    var long := w0 + " " + w1 + " " + rest;
    assert long == w0 + [' '] + (w1 + [' '] + rest);
    SplitAfterWord(w0, w1 + [' '] + rest, ' ');
    SplitAfterWord(w1, rest, ' ');
    var short := w0 + " " + w1;
    assert short == w0 + [' '] + w1;
    SplitAfterWord(w0, w1, ' ');
    SplitNoSep(w1, ' ');
  }

  /** The arguments of the interactive client's `jobSubmit` (the proxy
      aside). */
  datatype InteractiveCall = InteractiveCall(tempPath: string, job: string, output: string, command: string)

  /** HadoopV2Interactive's `submitNewBigJob`. `jdl` is the job's JDL
      lookup, carrying its Executable attribute when it has one; `jobInfo`
      the job-attribute lookup; `client` the interactive client's
      `jobSubmit`. A client that found no job id returns None, and reading
      `['OK']` of None raises TypeError. */
  function SubmitInteractive(id: nat, jobName: string, dataset: string, jdl: Result<Option<string>>,
                             jobInfo: Result<()>, client: InteractiveCall -> Py<Option<Result<string>>>,
                             mode: Mode)
    : (r: Py<Result<string>>)
    ensures jdl.Err? ==> r == Raised(KeyError)
    ensures jdl.Ok? && jobInfo.Err? ==>
      r == (if mode == AsWritten then Raised(KeyError) else Returned(Err(jobInfo.message)))
    ensures jdl.Ok? && jobInfo.Ok? ==>
      var exe := if jdl.value.Some? then jdl.value.value else "";
      var reply := client(InteractiveCall(InteractiveStaging(id), SandboxJob(id, exe),
                                          InteractiveOutput(id, exe),
                                          InteractiveCommand(id, exe, jobName, dataset)));
      (reply.Raised? ==> r == Raised(reply.exception))
      && (reply == Returned(None) ==> r == Raised(TypeError))
      && (reply.Returned? && reply.value.Some? ==> r == Returned(reply.value.value))
  {
    var attributes :- ValueOf(jdl);
    var exe := if attributes.Some? then attributes.value else "";
    if jobInfo.Err? then
      if mode == AsWritten then Raised(KeyError) else Returned(Err(jobInfo.message))
    else
      var call := InteractiveCall(InteractiveStaging(id), SandboxJob(id, exe), InteractiveOutput(id, exe),
                                  InteractiveCommand(id, exe, jobName, dataset));
      var reply :- client(call);
      match reply
      case None => Raised(TypeError)
      case Some(Err(m)) => Returned(Err(m))
      case Some(Ok(v)) => Returned(Ok(v))
  }

  // ---------------------------------------------------------------------
  // HiveV1
  // ---------------------------------------------------------------------

  const HiveStaging := "/tmp/hive_jobs/"

  /** The directory HiveV1 copies to the master. */
  function HiveCopyDir(id: nat): string {
    HiveStaging + "/InputSandbox" + NatToString(id)
  }

  /** The Hive job's output name, `<id>_<exe>_out`. */
  function HiveOutput(id: nat, exe: string): string {
    NatToString(id) + "_" + exe + "_out"
  }

  /** The arguments of the Hive client's `jobSubmit` (the proxy aside). */
  datatype HiveCall = HiveCall(tempPath: string, job: string, output: string)

  /** HiveV1's `submitNewBigJob`: the JDL lookup comes first, the
      job-attribute lookup before the submission; the client's failure
      message or value is passed on. */
  function SubmitHive(id: nat, jdl: Result<Option<string>>, jobInfo: Result<()>,
                      client: HiveCall -> Result<string>, mode: Mode)
    : (r: Py<Result<string>>)
    ensures jdl.Err? ==> r == Raised(KeyError)
    ensures jdl.Ok? && jobInfo.Err? ==>
      r == (if mode == AsWritten then Raised(KeyError) else Returned(Err(jobInfo.message)))
    ensures jdl.Ok? && jobInfo.Ok? ==>
      var exe := if jdl.value.Some? then jdl.value.value else "";
      r == Returned(client(HiveCall(HiveStaging, SandboxJob(id, exe), HiveOutput(id, exe))))
  {
    var attributes :- ValueOf(jdl);
    var exe := if attributes.Some? then attributes.value else "";
    if jobInfo.Err? then
      if mode == AsWritten then Raised(KeyError) else Returned(Err(jobInfo.message))
    else
      match client(HiveCall(HiveStaging, SandboxJob(id, exe), HiveOutput(id, exe)))
      case Err(m) => Returned(Err(m))
      case Ok(v) => Returned(Ok(v))
  }

  // ---------------------------------------------------------------------
  // The driver table's `run`
  // ---------------------------------------------------------------------

  /** The collaborators the drivers call. `v1Interactive` is the
      HadoopV1Interactive driver, which is not modelled here. */
  datatype Backends = Backends(
    submit: (string, string) -> Result<Triple>,
    jobInfo: nat -> Result<()>,
    jdl: nat -> Result<Option<string>>,
    interactive: InteractiveCall -> Py<Option<Result<string>>>,
    hive: HiveCall -> Result<string>,
    v1Interactive: Director.BackendRequest -> Py<Result<string>>)

  /** Constructing and running the chosen driver. As written the table
      constructs HadoopV1 with seven arguments for six parameters, which
      raises TypeError; HadoopV2 receives the dataset as its Arguments. */
  function Run(d: Director.Driver, req: Director.BackendRequest, env: Backends, mode: Mode)
    : (r: Py<Result<string>>)
    requires d != Director.Twister
    ensures d == Director.HadoopV1 && mode == AsWritten ==> r == Raised(TypeError)
    ensures d == Director.HadoopV2 && mode == AsWritten ==> r.Raised?
    ensures d == Director.HadoopV1 && mode == Intended ==>
      r == SubmitV1(req.jobName, req.jobId, env.submit, Intended)
    ensures d == Director.HadoopV2 && mode == Intended ==>
      r == SubmitV2(req.jobName, req.dataset, req.jobId, env.jobInfo(req.jobId), env.submit, Intended)
  {
    match d
    case HadoopV1 =>
      if mode == AsWritten then
        Calls.Call(Calls.DriverTableToHadoopV1).PropagateFailure()
      else SubmitV1(req.jobName, req.jobId, env.submit, mode)
    case HadoopV1Interactive => env.v1Interactive(req)
    case HadoopV2 => SubmitV2(req.jobName, req.dataset, req.jobId, env.jobInfo(req.jobId), env.submit, mode)
    case HadoopV2Interactive =>
      SubmitInteractive(req.jobId, req.jobName, req.dataset, env.jdl(req.jobId), env.jobInfo(req.jobId),
                        env.interactive, mode)
    case HiveV1 => SubmitHive(req.jobId, env.jdl(req.jobId), env.jobInfo(req.jobId), env.hive, mode)
  }
}
