/** The remote-side helpers the drivers and the monitor call:
    `HadoopV2Client.jobSubmit` / `jobStatus` and
    `HadoopV2InteractiveClient.jobSubmit`.

    The transport (ssh or scp through ConnectionUtils) is a function from
    the command text to the remote call's outcome: Ok of
    (exit code, stdout, stderr), or Err.
 */
module Clients {
  import opened Base
  import opened Text

  // ---------------------------------------------------------------------
  // HadoopV2Client
  // ---------------------------------------------------------------------

  /** The command `jobSubmit` runs on the Hadoop master. */
  function SubmitCommand(tempPath: string, descriptor: string): string {
    "hadoop job -submit " + tempPath + "/" + descriptor
  }

  /** The submit command names the descriptor file as its fourth word. */
  lemma SubmitCommandWords(tempPath: string, descriptor: string)
    requires ' ' !in tempPath && ' ' !in descriptor
    ensures Split(SubmitCommand(tempPath, descriptor), ' ')
            == ["hadoop", "job", "-submit", tempPath + "/" + descriptor]
  {
    var path := tempPath + "/" + descriptor;
    assert ' ' !in path;
    var c := "-submit" + [' '] + path;
    assert Split(c, ' ') == ["-submit", path] by {
      SplitAfterWord("-submit", path, ' ');
      SplitNoSep(path, ' ');
    }
    var b := "job" + [' '] + c;
    assert Split(b, ' ') == ["job", "-submit", path] by {
      SplitAfterWord("job", c, ' ');
    }
    var a := "hadoop" + [' '] + b;
    assert Split(a, ' ') == ["hadoop", "job", "-submit", path] by {
      SplitAfterWord("hadoop", b, ' ');
    }
    var prefix := "hadoop job -submit ";
    assert prefix == "hadoop" + [' '] + "job" + [' '] + "-submit" + [' '];
    assert a == prefix + path;
    assert SubmitCommand(tempPath, descriptor) == prefix + path;
  }

  /** The command `jobStatus` runs locally: an ssh to the master that greps
      the job's state lines. */
  function StatusCommand(jobId: string, user: string, host: string): string {
    "ssh -l " + user + " " + host + " 'hadoop job -status " + jobId + "| grep state'"
  }

  predicate IsStateLine(line: string) {
    Contains(line, "state")
  }

  /** The status word a state line stands for. */
  function StateWord(line: string): string {
    if line == "Job state: SUCCEEDED" then "Succeded"
    else if line == "Job state: RUNNING" then "Running"
    else "Unknown"
  }

  /** The parse of `jobStatus`: the output is split into lines, and the
      first line mentioning "state" decides. With no such line the
      `matching[0]` lookup raises IndexError. */
  function StatusOfOutput(stdout: string): (r: Py<Result<string>>)
    ensures r.Raised? <==> forall l :: l in Split(stdout, '\n') ==> !IsStateLine(l)
    ensures r.Raised? ==> r.exception == IndexError
    ensures r.Returned? ==> r.value.Ok? && r.value.value in {"Succeded", "Running", "Unknown"}
  {
    var matching := Filter(Split(stdout, '\n'), IsStateLine);
    if |matching| == 0 then Raised(IndexError)
    else
      assert matching[0] in matching;
      Returned(Ok(StateWord(matching[0])))
  }

  /** `jobStatus(jobId, user, host)`: a failed remote call is returned as
      an error; otherwise the output is parsed. */
  function JobStatus(jobId: string, user: string, host: string, ssh: string -> Result<Triple>)
    : (r: Py<Result<string>>)
    ensures var answer := ssh(StatusCommand(jobId, user, host));
      (answer.Err? ==> r == Returned(Err(answer.message)))
      && (answer.Ok? ==> r == StatusOfOutput(answer.value.stdout))
    ensures r.Returned? && r.value.Ok? ==> r.value.value in {"Succeded", "Running", "Unknown"}
  {
    match ssh(StatusCommand(jobId, user, host))
    case Err(m) => Returned(Err(m))
    case Ok(t) => StatusOfOutput(t.stdout)
  }

  /** Only the first state line decides: whatever precedes it without a
      state and whatever follows it does not matter. It gives Succeded
      when it reads "Job state: SUCCEEDED", Running when it reads
      "Job state: RUNNING", and Unknown otherwise. */
  lemma FirstStateLineDecides(pre: seq<string>, line: string, post: seq<string>)
    requires forall l :: l in pre ==> !IsStateLine(l)
    requires IsStateLine(line)
    requires forall i :: 0 <= i < |pre + [line] + post| ==> '\n' !in (pre + [line] + post)[i]
    ensures var r := StatusOfOutput(Join(pre + [line] + post, '\n'));
      (line == "Job state: SUCCEEDED" ==> r == Returned(Ok("Succeded")))
      && (line == "Job state: RUNNING" ==> r == Returned(Ok("Running")))
      && (line != "Job state: SUCCEEDED" && line != "Job state: RUNNING" ==> r == Returned(Ok("Unknown")))
  {
    SplitJoin(pre + [line] + post, '\n');
    FilterFirst(pre, line, post, IsStateLine);
  }

  /** The lines Hadoop 2 prints for a finished and for a running job are
      state lines. */
  lemma HadoopStateLines()
    ensures IsStateLine("Job state: SUCCEEDED") && IsStateLine("Job state: RUNNING")
  {
    ContainsInfix("Job ", "state", ": SUCCEEDED");
    assert "Job " + "state" + ": SUCCEEDED" == "Job state: SUCCEEDED";
    ContainsInfix("Job ", "state", ": RUNNING");
    assert "Job " + "state" + ": RUNNING" == "Job state: RUNNING";
  }

  // ---------------------------------------------------------------------
  // HadoopV2InteractiveClient
  // ---------------------------------------------------------------------

  /** The characters that end the `[^:]+` part of the job-id pattern: a
      colon as written; as intended a line break too, so that the id is
      taken from one output line. */
  predicate Stops(c: char, mode: Mode) {
    c == ':' || (mode == Intended && c == '\n')
  }

  /** The first stopping character at or after `j`, or the end of `s`. */
  function StopFrom(s: string, j: nat, mode: Mode): (k: nat)
    requires j <= |s|
    ensures j <= k <= |s|
    ensures forall m :: j <= m < k ==> !Stops(s[m], mode)
    ensures k < |s| ==> Stops(s[k], mode)
    decreases |s| - j
  {
    if j == |s| || Stops(s[j], mode) then j else StopFrom(s, j + 1, mode)
  }

  /** The pattern `job_+([^:]+)` matches at `i`: "job", one or more '_',
      then at least one character that does not stop it. Since '_' does
      not stop it either, a match exists exactly when the character after
      "job_" does not stop it, and it runs to the next stopping character. */
  predicate MatchesAt(s: string, i: nat, mode: Mode) {
    i + 5 <= |s| && s[i..i + 4] == "job_" && !Stops(s[i + 4], mode)
  }

  /** The leftmost match at or after `i`, as `re.search` finds it. */
  function FirstMatch(s: string, i: nat, mode: Mode): (r: Option<nat>)
    requires i <= |s|
    ensures r.Some? ==> i <= r.value && MatchesAt(s, r.value, mode)
    ensures r.Some? ==> forall k :: i <= k < r.value ==> !MatchesAt(s, k, mode)
    ensures r.None? ==> forall k :: i <= k ==> !MatchesAt(s, k, mode)
    decreases |s| - i
  {
    if i == |s| then None
    else if MatchesAt(s, i, mode) then Some(i)
    else FirstMatch(s, i + 1, mode)
  }

  /** `re.search("job_+([^:]+)", stdout).group(0).rstrip()`; None when the
      pattern does not match. */
  function SearchJobId(stdout: string, mode: Mode): (r: Option<string>)
    ensures r.None? <==> forall i :: !MatchesAt(stdout, i, mode)
    ensures r.Some? ==> |r.value| >= 4 && r.value[..4] == "job_"
    ensures r.Some? ==> ':' !in r.value
    ensures r.Some? && mode == Intended ==> '\n' !in r.value
  {
    match FirstMatch(stdout, 0, mode)
    case None => None
    case Some(i) =>
      MatchedId(stdout, i, mode);
      Some(RStrip(stdout[i..StopFrom(stdout, i + 4, mode)]))
  }

  /** The text a match covers, right-stripped, starts with "job_" and holds
      no stopping character. */
  lemma MatchedId(s: string, i: nat, mode: Mode)
    requires MatchesAt(s, i, mode)
    ensures var id := RStrip(s[i..StopFrom(s, i + 4, mode)]);
      |id| >= 4 && id[..4] == "job_" && ':' !in id && (mode == Intended ==> '\n' !in id)
  {
    var k := StopFrom(s, i + 4, mode);
    var m := s[i..k];
    assert m[..4] == s[i..i + 4];
    assert !IsSpace(m[3]);
    forall j | 0 <= j < |m| ensures !Stops(m[j], mode) {
      assert m[j] == s[i + j];
    }
    var id := RStrip(m);
    assert |id| > 3;
    assert id[..4] == m[..4];
    forall j | 0 <= j < |id| ensures !Stops(id[j], mode) {
      assert id[j] == m[j];
    }
  }

  /** The id Hadoop logs is what the search returns, whatever text without
      a match precedes it, as long as only whitespace and then a stopping
      character (or the end) follow it. */
  lemma SearchFindsLoggedId(pre: string, id: string, w: string, rest: string, mode: Mode)
    requires forall i :: 0 <= i < |pre| ==> !MatchesAt(pre + id + w + rest, i, mode)
    requires |id| >= 5 && id[..4] == "job_" && !IsSpace(id[|id| - 1])
    requires forall k :: 0 <= k < |id| ==> !Stops(id[k], mode)
    requires forall k :: 0 <= k < |w| ==> IsSpace(w[k]) && !Stops(w[k], mode)
    requires |rest| == 0 || Stops(rest[0], mode)
    ensures SearchJobId(pre + id + w + rest, mode) == Some(id)
  {
    var s := pre + id + w + rest;
    var i := |pre|;
    assert s[i..i + 4] == id[..4];
    assert MatchesAt(s, i, mode) by {
      assert s[i + 4] == id[4];
    }
    var first := FirstMatch(s, 0, mode);
    assert first == Some(i);
    var end := i + |id| + |w|;
    assert forall m :: i + 4 <= m < end ==> !Stops(s[m], mode) by {
      forall m | i + 4 <= m < end ensures !Stops(s[m], mode) {
        if m < i + |id| {
          assert s[m] == id[m - i];
        } else {
          assert s[m] == w[m - i - |id|];
        }
      }
    }
    assert end < |s| ==> s[end] == rest[0];
    var stop := StopFrom(s, i + 4, mode);
    assert stop == end;
    assert s[i..end] == id + w;
    RStripTrailing(id, w);
  }

  /** With two submission lines in the output, the id found as written
      runs on into the next line up to the first colon of its timestamp. */
  lemma AsWrittenIdRunsIntoNextLine()
    ensures SearchJobId(TwoSubmissions, AsWritten) == Some("job_1_1\n15/01/01 10")
  {
    var id := "job_1_1\n15/01/01 10";
    var rest := ":00:09 job_1_2\n";
    assert TwoSubmissions == "" + id + "" + rest;
    assert forall k :: 0 <= k < |id| ==> id[k] != ':';
    SearchFindsLoggedId("", id, "", rest, AsWritten);
  }

  /** As intended the first id alone is found. */
  lemma IntendedIdIsFirstLine()
    ensures SearchJobId(TwoSubmissions, Intended) == Some("job_1_1")
  {
    var rest := "\n15/01/01 10:00:09 job_1_2\n";
    assert TwoSubmissions == "" + "job_1_1" + "" + rest;
    SearchFindsLoggedId("", "job_1_1", "", rest, Intended);
  }

  /** Step1 output of a program that submits two Hadoop jobs, reduced to
      the ids and the timestamp between them. */
  const TwoSubmissions := "job_1_1\n15/01/01 10:00:09 job_1_2\n"

  const LaunchError := "Error launching Hadoop-HadoopInteractive Thread"

  /** `jobSubmit(tempPath, job, proxy, output, command)`: the two copies
      (the payload, then the step script), the launch thread, then the
      step1 call that reads the Hadoop job id. `proxy` is whether a proxy
      chain was passed: without one the step script's name is never bound,
      so the second copy raises NameError. `alive` is whether the launch
      thread still runs after the wait. None is the method falling off its
      end without a return. */
  function InteractiveSubmit(proxy: bool, copyPayload: Result<Triple>, copyScript: Result<Triple>,
                             alive: bool, step1: Result<Triple>, mode: Mode)
    : (r: Py<Option<Result<string>>>)
    ensures !proxy ==> r == Raised(NameError)
    ensures proxy && copyPayload.Err? ==> r == Returned(Some(Err(copyPayload.message)))
    ensures proxy && copyPayload.Ok? && copyScript.Err? ==> r == Returned(Some(Err(copyScript.message)))
    ensures proxy && copyPayload.Ok? && copyScript.Ok? && !alive ==> r == Returned(Some(Err(LaunchError)))
    ensures proxy && copyPayload.Ok? && copyScript.Ok? && alive && step1.Err? ==> r == Raised(KeyError)
    // once launched: an id when the step1 output holds one, nothing otherwise
    ensures proxy && copyPayload.Ok? && copyScript.Ok? && alive && step1.Ok? ==>
      (r == Returned(None) <==> forall i :: !MatchesAt(step1.value.stdout, i, mode))
    ensures r.Returned? && r.value.Some? && r.value.value.Ok? ==>
      step1.Ok? && Contains(step1.value.stdout, "job_")
      && |r.value.value.value| >= 4 && r.value.value.value[..4] == "job_"
      && ':' !in r.value.value.value
  {
    if !proxy then Raised(NameError)
    else if copyPayload.Err? then Returned(Some(Err(copyPayload.message)))
    else if copyScript.Err? then Returned(Some(Err(copyScript.message)))
    else if !alive then Returned(Some(Err(LaunchError)))
    else
      var out :- ValueOf(step1);
      if out.stdout == "" then Returned(None)
      else
        match SearchJobId(out.stdout, mode)
        case None => Returned(None)
        case Some(id) =>
          var i := FirstMatch(out.stdout, 0, mode).value;
          assert out.stdout == out.stdout[..i] + "job_" + out.stdout[i + 4..];
          ContainsInfix(out.stdout[..i], "job_", out.stdout[i + 4..]);
          Returned(Some(Ok(id)))
  }
}
