/** The thread that follows an interactive job once it is launched
    (`InteractiveJobMonitorThread.monitoring`): the ledger job id read off
    the output path, the two-phase polling of the job's info script
    (`-c step1`, then `-c step2` and `-c step3`), and the resolution of the
    output sandbox (`__resolveOutputSandboxFiles`) before its upload.

    The remote calls, the local file system and the sandbox store are
    inputs; each poll returns the ledger and sandbox effects it has, in
    order, and how the thread goes on.
 */
module InteractiveMonitor {
  import opened Base
  import opened Text
  import Drivers

  // ---------------------------------------------------------------------
  // The job id of an output path
  // ---------------------------------------------------------------------

  /** `int(re.split("_", <last "/" component>)[0])`. */
  function JobIdOfOutput(output: string): (r: Py<int>)
    ensures r.Raised? ==> r.exception == ValueError
  {
    var name := Last(Split(output, '/'));
    PyInt(Split(name, '_')[0])
  }

  /** An output file named `<id>_<anything without '/'>` in any directory
      gives back `id`. */
  lemma JobIdOfNamedOutput(dir: string, id: nat, rest: string)
    requires '/' !in rest
    ensures JobIdOfOutput(dir + "/" + NatToString(id) + "_" + rest) == Returned(id)
  {
    var s := NatToString(id);
    NatToStringHasNo(id, '/');
    NatToStringHasNo(id, '_');
    var name := s + "_" + rest;
    assert '/' !in name by {
      assert forall k :: 0 <= k < |name| ==> name[k] == (if k < |s| then s[k] else if k == |s| then '_' else rest[k - |s| - 1]);
    }
    assert dir + "/" + NatToString(id) + "_" + rest == dir + ['/'] + name;
    LastPieceAfterSeparator(dir, name, '/');
    assert name == s + ['_'] + rest;
    FirstPieceBeforeSeparator(s, rest, '_');
    IntOfNatToString(id);
  }

  /** The Hive driver's output path (its staging directory and
      `<id>_<exe>_out`) names the ledger job when the executable's name has
      no '/'. */
  lemma HiveOutputNamesJob(id: nat, exe: string)
    requires '/' !in exe
    ensures JobIdOfOutput(Drivers.HiveStaging + Drivers.HiveOutput(id, exe)) == Returned(id)
  {
    var rest := exe + "_out";
    assert '/' !in rest by {
      assert forall k :: 0 <= k < |rest| ==> rest[k] == (if k < |exe| then exe[k] else "_out"[k - |exe|]);
    }
    assert Drivers.HiveStaging + Drivers.HiveOutput(id, exe) == "/tmp/hive_jobs" + "/" + NatToString(id) + "_" + rest;
    JobIdOfNamedOutput("/tmp/hive_jobs", id, rest);
  }

  /** The same holds for the interactive Hadoop 2 driver's output path. */
  lemma InteractiveOutputNamesJob(id: nat, exe: string)
    requires '/' !in exe
    ensures JobIdOfOutput(Drivers.InteractiveOutput(id, exe)) == Returned(id)
  {
    var rest := exe + "_out";
    assert '/' !in rest by {
      assert forall k :: 0 <= k < |rest| ==> rest[k] == (if k < |exe| then exe[k] else "_out"[k - |exe|]);
    }
    var dir := "/tmp/" + NatToString(id);
    assert Drivers.InteractiveOutput(id, exe) == dir + "/" + NatToString(id) + "_" + rest;
    JobIdOfNamedOutput(dir, id, rest);
  }

  // ---------------------------------------------------------------------
  // Counting ended jobs: re.findall('Job =.*?\n', s)
  // ---------------------------------------------------------------------

  const JobMark: string := "Job ="

  /** The first line break at or after `from`. */
  function NextBreak(s: string, from: nat): (k: Option<nat>)
    requires from <= |s|
    ensures k.Some? ==> from <= k.value < |s| && s[k.value] == '\n'
    ensures k.Some? ==> forall m :: from <= m < k.value ==> s[m] != '\n'
    ensures k.None? ==> forall m :: from <= m < |s| ==> s[m] != '\n'
    decreases |s| - from
  {
    if from == |s| then None
    else if s[from] == '\n' then Some(from)
    else NextBreak(s, from + 1)
  }

  /** The matches of `Job =.*?\n`, left to right: a match is the mark, the
      shortest run of characters other than a line break, and a line
      break; the scan resumes after a match and moves one character on
      where none starts. */
  function FindEnded(s: string): (found: seq<string>)
    ensures forall i :: 0 <= i < |found| ==>
      JobMark <= found[i] && |found[i]| > |JobMark| && found[i][|found[i]| - 1] == '\n'
    decreases |s|
  {
    if |s| == 0 then []
    else if JobMark <= s && NextBreak(s, |JobMark|).Some? then
      var k := NextBreak(s, |JobMark|).value;
      [s[..k + 1]] + FindEnded(s[k + 1..])
    else FindEnded(s[1..])
  }

  predicate MentionsJob(line: string) {
    Contains(line, JobMark)
  }

  /** The lines of `s` a line break terminates (all but the last piece). */
  function TerminatedLines(s: string): seq<string> {
    var lines := Split(s, '\n');
    lines[..|lines| - 1]
  }

  /** Text without a line break holds no match. */
  lemma {:induction false} NoBreakNoMatch(s: string)
    requires '\n' !in s
    ensures FindEnded(s) == []
    decreases |s|
  {
    if |s| > 0 {
      if JobMark <= s {
        assert NextBreak(s, |JobMark|).None?;
      }
      NoBreakNoMatch(s[1..]);
    }
  }

  /** From a position `j` in a line ending at the break `k`, the scan finds
      one match when the rest of the line mentions a job, and none
      otherwise, before going on after the break. */
  lemma {:induction false} LineScan(s: string, j: nat, k: nat)
    requires j <= k < |s| && s[k] == '\n'
    requires forall m :: j <= m < k ==> s[m] != '\n'
    ensures |FindEnded(s[j..])| == (if MentionsJob(s[j..k]) then 1 else 0) + |FindEnded(s[k + 1..])|
    decreases k - j
  {
    var t := s[j..];
    if j == k {
      assert !(JobMark <= t) by { assert t[0] == '\n'; }
      assert t[1..] == s[k + 1..];
      assert !MentionsJob(s[j..k]) by { assert s[j..k] == ""; }
    } else if JobMark <= t {
      assert k - j >= |JobMark|;
      assert NextBreak(t, |JobMark|) == Some(k - j) by {
        assert t[k - j] == '\n';
      }
      assert t[k - j + 1..] == s[k + 1..];
      assert JobMark <= s[j..k];
    } else {
      assert t[1..] == s[j + 1..];
      assert s[j..k][1..] == s[j + 1..k];
      assert !(JobMark <= s[j..k]);
      LineScan(s, j + 1, k);
    }
  }

  /** The number of matches is the number of terminated lines that mention
      a job: one per line, however often the line mentions one, and none
      for an unterminated last line. */
  lemma {:induction false} EndedCountsLines(s: string)
    ensures |FindEnded(s)| == |Filter(TerminatedLines(s), MentionsJob)|
    decreases |s|
  {
    var k := NextBreak(s, 0);
    if k.None? {
      NoBreakNoMatch(s);
      SplitNoSep(s, '\n');
      assert TerminatedLines(s) == [];
    } else {
      var line, rest := s[..k.value], s[k.value + 1..];
      assert '\n' !in line;
      assert s == line + ['\n'] + rest;
      SplitAfterWord(line, rest, '\n');
      assert TerminatedLines(s) == [line] + TerminatedLines(rest);
      assert ([line] + TerminatedLines(rest))[1..] == TerminatedLines(rest);
      LineScan(s, 0, k.value);
      assert s[0..] == s;
      EndedCountsLines(rest);
    }
  }

  // ---------------------------------------------------------------------
  // Resolving the output sandbox
  // ---------------------------------------------------------------------

  /** The glob hits of the sandbox entries, in order. */
  function Hits(sandbox: seq<string>, local: Local): seq<string>
    decreases |sandbox|
  {
    if |sandbox| == 0 then []
    else Hits(sandbox[..|sandbox| - 1], local) + local.glob(sandbox[|sandbox| - 1])
  }

  lemma {:induction false} HitsMembership(sandbox: seq<string>, local: Local)
    ensures forall x :: x in Hits(sandbox, local) <==> exists p :: p in sandbox && x in local.glob(p)
    decreases |sandbox|
  {
    if |sandbox| > 0 {
      var init := sandbox[..|sandbox| - 1];
      assert forall p :: p in sandbox <==> p in init || p == sandbox[|sandbox| - 1];
      HitsMembership(init, local);
    }
  }

  /** What one hit adds to the files: the hit when it is a file, its tar
      when it is a directory that could be tarred. */
  function HitFiles(check: string, local: Local): seq<string> {
    (if local.isFile(check) then [check] else [])
    + (if local.isDir(check) && local.tarred(check) then [check + ".tar"] else [])
  }

  /** What one hit adds to the missing entries: a directory that could not
      be tarred. */
  function HitMissing(check: string, local: Local): seq<string> {
    if local.isDir(check) && !local.tarred(check) then [check] else []
  }

  /** The hit `h` puts `x` among the files. */
  predicate Provides(h: string, x: string, local: Local) {
    (local.isFile(h) && x == h) || (local.isDir(h) && local.tarred(h) && x == h + ".tar")
  }

  /** The first loop over the hits: (files, missing). */
  function FirstPass(hits: seq<string>, local: Local): (seq<string>, seq<string>)
    decreases |hits|
  {
    if |hits| == 0 then ([], [])
    else
      var before := FirstPass(hits[..|hits| - 1], local);
      var check := hits[|hits| - 1];
      (before.0 + HitFiles(check, local), before.1 + HitMissing(check, local))
  }

  lemma FirstPassSnoc(hits: seq<string>, check: string, local: Local)
    ensures var before := FirstPass(hits, local);
      FirstPass(hits + [check], local) == (before.0 + HitFiles(check, local), before.1 + HitMissing(check, local))
  {
    assert (hits + [check])[..|hits|] == hits;
  }

  /** The files are what the hits provide; the missing entries are the
      hits that are directories that could not be tarred. */
  lemma {:induction false} FirstPassMembership(hits: seq<string>, local: Local)
    ensures forall x :: x in FirstPass(hits, local).0 <==> exists h :: h in hits && Provides(h, x, local)
    ensures forall x :: x in FirstPass(hits, local).1 <==> x in hits && local.isDir(x) && !local.tarred(x)
    decreases |hits|
  {
    if |hits| > 0 {
      var init := hits[..|hits| - 1];
      var check := hits[|hits| - 1];
      assert forall h :: h in hits <==> h in init || h == check;
      FirstPassMembership(init, local);
      forall x ensures x in HitFiles(check, local) <==> Provides(check, x, local) {
      }
    }
  }

  /** A sandbox entry neither found as a file nor as a tar, and not a
      wildcard. */
  predicate Unresolved(entry: string, files: seq<string>) {
    entry !in files && entry + ".tar" !in files && '*' !in entry
  }

  /** The second loop: every unresolved entry not yet missing is added to
      the missing ones. */
  function SecondPass(sandbox: seq<string>, files: seq<string>, missing: seq<string>): seq<string>
    decreases |sandbox|
  {
    if |sandbox| == 0 then missing
    else
      var before := SecondPass(sandbox[..|sandbox| - 1], files, missing);
      var entry := sandbox[|sandbox| - 1];
      if Unresolved(entry, files) && entry !in before then before + [entry] else before
  }

  /** The second loop keeps the missing entries it starts from and adds,
      once each, the unresolved entries not among them. */
  lemma {:induction false} SecondPassAdds(sandbox: seq<string>, files: seq<string>, missing: seq<string>)
    ensures var r := SecondPass(sandbox, files, missing);
      |missing| <= |r| && r[..|missing|] == missing
      && (forall x :: x in r <==> x in missing || (x in sandbox && Unresolved(x, files)))
      && (forall i :: |missing| <= i < |r| ==> r[i] !in missing)
      && (forall i, j :: |missing| <= i < j < |r| ==> r[i] != r[j])
    decreases |sandbox|
  {
    if |sandbox| > 0 {
      var init := sandbox[..|sandbox| - 1];
      var entry := sandbox[|sandbox| - 1];
      assert forall p :: p in sandbox <==> p in init || p == entry;
      SecondPassAdds(init, files, missing);
      var before := SecondPass(init, files, missing);
      if Unresolved(entry, files) && entry !in before {
        var r := before + [entry];
        assert r[..|missing|] == before[..|missing|];
        forall x | x in missing ensures x in before {
          var i :| 0 <= i < |missing| && missing[i] == x;
          assert before[i] == x;
        }
      }
    }
  }

  /** `__resolveOutputSandboxFiles` as a function: (files, missing). */
  function Resolve(sandbox: seq<string>, local: Local): (seq<string>, seq<string>) {
    var first := FirstPass(Hits(sandbox, local), local);
    (first.0, SecondPass(sandbox, first.0, first.1))
  }

  /** What the resolution holds: a file for every hit that is a file and a
      tar for every hit that is a directory that could be tarred; as
      missing, the directories that could not be, then each unresolved
      non-wildcard entry once. */
  lemma ResolveMembership(sandbox: seq<string>, local: Local, x: string)
    ensures var r := Resolve(sandbox, local);
      (x in r.0 <==> exists p, h :: p in sandbox && h in local.glob(p) && Provides(h, x, local))
      && (x in r.1 <==> (x in Hits(sandbox, local) && local.isDir(x) && !local.tarred(x))
                        || (x in sandbox && Unresolved(x, r.0)))
  {
    var hits := Hits(sandbox, local);
    HitsMembership(sandbox, local);
    FirstPassMembership(hits, local);
    var first := FirstPass(hits, local);
    SecondPassAdds(sandbox, first.0, first.1);
    if x in first.0 {
      var h :| h in hits && Provides(h, x, local);
      var p :| p in sandbox && h in local.glob(p);
    }
    if exists p, h :: p in sandbox && h in local.glob(p) && Provides(h, x, local) {
      var p, h :| p in sandbox && h in local.glob(p) && Provides(h, x, local);
      assert h in hits;
    }
  }

  /** No hit is a directory. */
  predicate NoDirectoryHit(hits: seq<string>, local: Local) {
    forall h :: h in hits ==> !local.isDir(h)
  }

  /** `__resolveOutputSandboxFiles`. As written a directory hit raises
      NameError: its tar command calls `systemCall`, which the module never
      imports. As intended the directory is tarred. */
  function ResolveSandbox(sandbox: seq<string>, local: Local, mode: Mode): (r: Py<(seq<string>, seq<string>)>)
    ensures r.Raised? <==>
      mode == AsWritten && exists p, h :: p in sandbox && h in local.glob(p) && local.isDir(h)
    ensures r.Raised? ==> r.exception == NameError
    ensures r.Returned? ==> r.value == Resolve(sandbox, local)
  {
    HitsMembership(sandbox, local);
    if mode == AsWritten && !NoDirectoryHit(Hits(sandbox, local), local) then Raised(NameError)
    else Returned(Resolve(sandbox, local))
  }

  /** The two loops of `__resolveOutputSandboxFiles`. */
  method ResolveOutputSandbox(sandbox: seq<string>, local: Local, mode: Mode)
    returns (r: Py<(seq<string>, seq<string>)>)
    ensures r == ResolveSandbox(sandbox, local, mode)
  {
    var hits := CollectHits(sandbox, local, mode);
    match hits
    case Raised(e) =>
      r := Raised(e);
    case Returned(found) =>
      var missing := AddUnresolved(sandbox, found.0, found.1);
      r := Returned((found.0, missing));
  }

  /** The first loop: every glob hit of every entry is visited, up to a
      directory as written. */
  method CollectHits(sandbox: seq<string>, local: Local, mode: Mode) returns (r: Py<(seq<string>, seq<string>)>)
    ensures r.Raised? <==> mode == AsWritten && !NoDirectoryHit(Hits(sandbox, local), local)
    ensures r.Raised? ==> r.exception == NameError
    ensures r.Returned? ==> r.value == FirstPass(Hits(sandbox, local), local)
  {
    var files, missing := [], [];
    var i := 0;
    while i < |sandbox|
      invariant 0 <= i <= |sandbox|
      invariant (files, missing) == FirstPass(Hits(sandbox[..i], local), local)
      invariant mode == AsWritten ==> NoDirectoryHit(Hits(sandbox[..i], local), local)
    {
      ghost var done := Hits(sandbox[..i], local);
      assert Hits(sandbox[..i + 1], local) == done + local.glob(sandbox[i]) by {
        assert sandbox[..i + 1][..i] == sandbox[..i];
      }
      var visited := VisitHits(files, missing, local.glob(sandbox[i]), local, mode, done);
      if visited.Raised? {
        HitsPrefix(sandbox, i + 1, local);
        return visited;
      }
      files, missing := visited.value.0, visited.value.1;
      i := i + 1;
    }
    assert sandbox[..i] == sandbox;
    r := Returned((files, missing));
  }

  /** A directory among the hits of a prefix is a directory among all hits. */
  lemma HitsPrefix(sandbox: seq<string>, i: nat, local: Local)
    requires i <= |sandbox|
    ensures forall h :: h in Hits(sandbox[..i], local) ==> h in Hits(sandbox, local)
  {
    HitsMembership(sandbox[..i], local);
    HitsMembership(sandbox, local);
    forall h | h in Hits(sandbox[..i], local) ensures h in Hits(sandbox, local) {
      var p :| p in sandbox[..i] && h in local.glob(p);
      assert p in sandbox;
    }
  }

  /** The inner loop, over the hits of one entry: a file is kept, a
      directory is tarred and its tar kept, or it is missing; as written
      the first directory raises. */
  method VisitHits(files0: seq<string>, missing0: seq<string>, globList: seq<string>, local: Local, mode: Mode,
                   ghost done: seq<string>)
    returns (r: Py<(seq<string>, seq<string>)>)
    requires (files0, missing0) == FirstPass(done, local)
    requires mode == AsWritten ==> NoDirectoryHit(done, local)
    ensures r.Raised? <==> mode == AsWritten && !NoDirectoryHit(globList, local)
    ensures r.Raised? ==> r.exception == NameError
    ensures r.Returned? ==>
      (r.value == FirstPass(done + globList, local) && (mode == AsWritten ==> NoDirectoryHit(done + globList, local)))
  {
    var files, missing := files0, missing0;
    assert done + globList[..0] == done;
    var j := 0;
    while j < |globList|
      invariant 0 <= j <= |globList|
      invariant (files, missing) == FirstPass(done + globList[..j], local)
      invariant mode == AsWritten ==> NoDirectoryHit(globList[..j], local)
    {
      var visited := Visit(files, missing, globList[j], local, mode);
      if visited.Raised? {
        return visited;
      }
      files, missing := visited.value.0, visited.value.1;
      VisitStep(done, globList, j, local);
      j := j + 1;
    }
    assert globList[..j] == globList;
    r := Returned((files, missing));
  }

  /** The first pass over one more hit of the entry being visited. */
  lemma VisitStep(done: seq<string>, globList: seq<string>, j: nat, local: Local)
    requires j < |globList|
    ensures var before := FirstPass(done + globList[..j], local);
      FirstPass(done + globList[..j + 1], local)
      == (before.0 + HitFiles(globList[j], local), before.1 + HitMissing(globList[j], local))
    ensures NoDirectoryHit(globList[..j], local) && !local.isDir(globList[j]) ==> NoDirectoryHit(globList[..j + 1], local)
  {
    assert globList[..j + 1] == globList[..j] + [globList[j]];
    assert done + globList[..j + 1] == (done + globList[..j]) + [globList[j]];
    FirstPassSnoc(done + globList[..j], globList[j], local);
  }

  /** One glob hit: a file is kept; a directory is tarred, and its tar
      kept when it exists, or the directory is missing. As written the tar
      command raises NameError. */
  method Visit(files0: seq<string>, missing0: seq<string>, check: string, local: Local, mode: Mode)
    returns (r: Py<(seq<string>, seq<string>)>)
    ensures r.Raised? <==> mode == AsWritten && local.isDir(check)
    ensures r.Raised? ==> r.exception == NameError
    ensures r.Returned? ==> r.value == (files0 + HitFiles(check, local), missing0 + HitMissing(check, local))
  {
    if mode == AsWritten && local.isDir(check) {
      return Raised(NameError);
    }
    var files, missing := files0, missing0;
    if local.isFile(check) {
      files := files + [check];
    }
    if local.isDir(check) {
      if local.tarred(check) {
        files := files + [check + ".tar"];
      } else {
        missing := missing + [check];
      }
    }
    assert files == files0 + HitFiles(check, local);
    assert missing == missing0 + HitMissing(check, local);
    r := Returned((files, missing));
  }

  /** The second loop over the entries. */
  method AddUnresolved(sandbox: seq<string>, files: seq<string>, firstMissing: seq<string>) returns (missing: seq<string>)
    ensures missing == SecondPass(sandbox, files, firstMissing)
  {
    missing := firstMissing;
    var k := 0;
    while k < |sandbox|
      invariant 0 <= k <= |sandbox|
      invariant missing == SecondPass(sandbox[..k], files, firstMissing)
    {
      var entry := sandbox[k];
      if entry !in files && entry + ".tar" !in files && '*' !in entry && entry !in missing {
        missing := missing + [entry];
      }
      assert sandbox[..k + 1][..k] == sandbox[..k];
      k := k + 1;
    }
    assert sandbox[..k] == sandbox;
  }

  // ---------------------------------------------------------------------
  // One poll
  // ---------------------------------------------------------------------

  /** The thread's state between polls: whether it is still counting the
      jobs the query will run (step1), and that number. */
  datatype Watch = Watch(counting: bool, numberJobs: int)

  const Start: Watch := Watch(true, 0)

  /** What the thread does to the ledger and the sandbox store. */
  datatype Effect =
    | SetStatus(status: string)
    | SetBackendIds(ids: seq<string>)      // `setHadoopID` with the list of matches
    | RecordMissing(files: seq<string>)    // the OutputSandboxMissingFiles parameter
    | Upload(files: seq<string>)           // `uploadFilesAsSandboxForJob`
    | Failover(fileName: string)           // the sandbox kept as output data instead

  /** The sandbox store's answer to an upload. */
  datatype UploadReply = Uploaded | Refused | RefusedWithFile(fileName: string)

  /** The local file system after the output copy: the glob expansion,
      `isfile`, `isdir`, and whether `tar cf <dir>.tar <dir>` left the
      tar file. */
  datatype Local = Local(glob: string -> seq<string>, isFile: string -> bool, isDir: string -> bool,
                         tarred: string -> bool)

  /** The outcome of each remote call of one poll, and the world the
      sandbox update sees. */
  datatype Replies = Replies(step1: Result<Triple>, step2: Result<Triple>, step3: Result<Triple>,
                             local: Local, upload: UploadReply)

  datatype Step = Step(effects: seq<Effect>, next: Py<Watch>)

  /** The step1 answer: with output, the text after the first '=' becomes
      the number of jobs when it is all digits once stripped; output with
      no '=' raises IndexError. */
  function JobsFromStep1(stdout: string, numberJobs: int): (r: Py<int>)
    ensures stdout == "" ==> r == Returned(numberJobs)
    ensures r.Raised? <==> stdout != "" && '=' !in stdout
    ensures r.Raised? ==> r.exception == IndexError
    ensures r.Returned? && r.value != numberJobs ==> r.value >= 0
  {
    if stdout == "" then Returned(numberJobs)
    else
      var parts := Split(stdout, '=');
      if |parts| < 2 then
        SplitNoSepIff(stdout, '=');
        Raised(IndexError)
      else
        SplitNoSepIff(stdout, '=');
        // `int()` strips the text itself
        if IsDigits(Strip(parts[1])) then Returned(DigitsValue(Strip(parts[1]))) else Returned(numberJobs)
  }

  /** A text splits into more than one piece exactly when it holds the
      separator. */
  lemma SplitNoSepIff(s: string, sep: char)
    ensures |Split(s, sep)| == 1 <==> sep !in s
  {
    if sep !in s {
      SplitNoSep(s, sep);
    } else {
      var i :| 0 <= i < |s| && s[i] == sep;
      assert s == s[..i] + [sep] + s[i + 1..];
      SplitConcat(s[..i], s[i + 1..], sep);
    }
  }

  /** `__updateSandBox`: the output resolved as a one-entry sandbox. As
      written, a directory output raises NameError in the resolution, any
      missing file raises AttributeError (the thread has no job report to
      record it on), and an upload refused with a failover file name
      raises NameError (the output-data list it appends to is not
      defined). As intended the directory is tarred and both are recorded. */
  function UpdateSandbox(jobId: int, output: string, local: Local, upload: UploadReply, mode: Mode)
    : (r: (seq<Effect>, Py<()>))
    ensures mode == AsWritten && !NoDirectoryHit(local.glob(output), local) ==> r == ([], Raised(NameError))
    ensures var res := Resolve([output], local);
      (mode == AsWritten && NoDirectoryHit(local.glob(output), local) && |res.1| > 0 ==> r == ([], Raised(AttributeError)))
      && (r.1.Returned? && |res.0| > 0 && jobId != 0 ==> Upload(res.0) in r.0)
      && (Upload(res.0) in r.0 ==> |res.0| > 0 && jobId != 0)
    ensures mode == Intended ==> r.1.Returned?
    ensures r.1.Raised? ==> r.1.exception in {AttributeError, NameError}
    ensures forall e :: e in r.0 ==> !e.SetStatus?
    // a refused upload that names its file: the failover list is undefined as written
    ensures var res := Resolve([output], local);
      |res.0| > 0 && jobId != 0 && upload.RefusedWithFile? ==>
      (mode == AsWritten && |res.1| == 0 ==> r.1 == Raised(NameError))
      && (mode == Intended ==> Failover(upload.fileName) in r.0)
  {
    assert Hits([output], local) == local.glob(output) by {
      assert [output][..0] == [];
    }
    match ResolveSandbox([output], local, mode)
    case Raised(e) => ([], Raised(e))
    case Returned(res) =>
      if |res.1| > 0 && mode == AsWritten then ([], Raised(AttributeError))
      else
        var recorded := if |res.1| > 0 then [RecordMissing(res.1)] else [];
        if |res.0| == 0 || jobId == 0 then (recorded, Returned(()))
        else
          var uploaded := recorded + [Upload(res.0)];
          match upload
          case Uploaded => (uploaded, Returned(()))
          case Refused => (uploaded, Returned(()))
          case RefusedWithFile(name) =>
            if mode == AsWritten then (uploaded, Raised(NameError))
            else (uploaded + [Failover(name)], Returned(()))
  }

  /** One turn of the `while parentthread.isAlive()` loop. Counting: the
      step1 answer may set the number of jobs; once it is not zero, the
      job is Running and counting ends. Afterwards: step2 is read and
      ignored, and when step3 lists as many ended jobs as there are jobs,
      the job is Done, its backend ids are the matches, and the sandbox is
      uploaded; the state does not change, so the next poll does it again.
      A failed remote call raises KeyError (its result has no 'Value'). */
  function Poll(w: Watch, jobId: int, output: string, replies: Replies, mode: Mode): (r: Step)
    ensures w.counting ==> SetStatus("Done") !in r.effects
    ensures SetStatus("Running") in r.effects ==>
      w.counting && r.effects == [SetStatus("Running")] && r.next.Returned? && !r.next.value.counting
    ensures !w.counting && r.next.Returned? ==> r.next.value == w
    ensures w.counting && r.next.Returned? && r.next.value.counting ==> r.next.value.numberJobs == 0
    ensures w.counting && r.next.Returned? && !r.next.value.counting ==> SetStatus("Running") in r.effects
    ensures !w.counting ==> SetStatus("Running") !in r.effects
    // Done is written exactly when every job has ended
    ensures !w.counting ==>
      (SetStatus("Done") in r.effects <==>
         replies.step2.Ok? && replies.step3.Ok? && replies.step3.value.stdout != ""
         && |FindEnded(replies.step3.value.stdout)| == w.numberJobs)
  {
    if w.counting then
      match replies.step1
      case Err(_) => Step([], Raised(KeyError))
      case Ok(t) =>
        match JobsFromStep1(t.stdout, w.numberJobs)
        case Raised(e) => Step([], Raised(e))
        case Returned(n) =>
          if n != 0 then Step([SetStatus("Running")], Returned(Watch(false, n)))
          else Step([], Returned(Watch(true, 0)))
    else if replies.step2.Err? || replies.step3.Err? then Step([], Raised(KeyError))
    else
      var stdout := replies.step3.value.stdout;
      if stdout == "" then Step([], Returned(w))
      else
        var found := FindEnded(stdout);
        if |found| != w.numberJobs then Step([], Returned(w))
        else
          var sandbox := UpdateSandbox(jobId, output, replies.local, replies.upload, mode);
          var effects := [SetStatus("Done"), SetBackendIds(found)] + sandbox.0;
          assert effects[0] == SetStatus("Done");
          assert SetStatus("Running") !in sandbox.0;
          Step(effects, if sandbox.1.Raised? then Raised(sandbox.1.exception) else Returned(w))
  }

  /** The counting phase keeps the number of jobs at zero. */
  predicate Consistent(w: Watch) {
    w.counting ==> w.numberJobs == 0
  }

  /** The polls of a thread while its launch thread lives; a raise ends
      the thread. */
  function RunFrom(w: Watch, jobId: int, output: string, polls: seq<Replies>, mode: Mode)
    : (r: (seq<Effect>, Py<Watch>))
    ensures Consistent(w) && r.1.Returned? ==> Consistent(r.1.value)
    ensures !w.counting && r.1.Returned? ==> r.1.value == w
    decreases |polls|
  {
    if |polls| == 0 then ([], Returned(w))
    else
      var step := Poll(w, jobId, output, polls[0], mode);
      if step.next.Raised? then (step.effects, step.next)
      else
        var rest := RunFrom(step.next.value, jobId, output, polls[1..], mode);
        (step.effects + rest.0, rest.1)
  }

  /** The whole thread: the job id is read off the output path first. */
  function Monitoring(output: string, polls: seq<Replies>, mode: Mode): (r: (seq<Effect>, Py<Watch>))
    ensures JobIdOfOutput(output).Raised? ==> r == ([], Raised(ValueError))
  {
    match JobIdOfOutput(output)
    case Raised(e) => ([], Raised(e))
    case Returned(jobId) => RunFrom(Start, jobId, output, polls, mode)
  }

  function CountStatus(effects: seq<Effect>, status: string): nat
    decreases |effects|
  {
    if |effects| == 0 then 0
    else (if effects[0] == SetStatus(status) then 1 else 0) + CountStatus(effects[1..], status)
  }

  lemma {:induction false} CountStatusConcat(a: seq<Effect>, b: seq<Effect>, status: string)
    ensures CountStatus(a + b, status) == CountStatus(a, status) + CountStatus(b, status)
    decreases |a|
  {
    if |a| > 0 {
      assert (a + b)[0] == a[0] && (a + b)[1..] == a[1..] + b;
      CountStatusConcat(a[1..], b, status);
      assert CountStatus(a + b, status)
          == (if a[0] == SetStatus(status) then 1 else 0) + CountStatus(a[1..] + b, status);
    } else {
      assert a + b == b;
    }
  }

  lemma {:induction false} CountStatusAbsent(a: seq<Effect>, status: string)
    requires SetStatus(status) !in a
    ensures CountStatus(a, status) == 0
    decreases |a|
  {
    if |a| > 0 {
      assert a[0] != SetStatus(status);
      assert forall e :: e in a[1..] ==> e in a;
      CountStatusAbsent(a[1..], status);
    }
  }

  /** Running is written at most once over any run, and not at all once
      counting is over. */
  lemma {:induction false} RunningAtMostOnce(w: Watch, jobId: int, output: string, polls: seq<Replies>, mode: Mode)
    requires Consistent(w)
    ensures CountStatus(RunFrom(w, jobId, output, polls, mode).0, "Running") <= if w.counting then 1 else 0
    decreases |polls|
  {
    if |polls| > 0 {
      var step := Poll(w, jobId, output, polls[0], mode);
      if SetStatus("Running") in step.effects {
        assert CountStatus(step.effects, "Running") == 1 by {
          assert step.effects == [SetStatus("Running")];
        }
      } else {
        CountStatusAbsent(step.effects, "Running");
      }
      if step.next.Returned? {
        var rest := RunFrom(step.next.value, jobId, output, polls[1..], mode);
        RunningAtMostOnce(step.next.value, jobId, output, polls[1..], mode);
        CountStatusConcat(step.effects, rest.0, "Running");
      }
    }
  }

  /** The counting phase never writes Done. */
  lemma CountingNeverDone(w: Watch, jobId: int, output: string, replies: Replies, mode: Mode)
    requires w.counting
    ensures CountStatus(Poll(w, jobId, output, replies, mode).effects, "Done") == 0
  {
    CountStatusAbsent(Poll(w, jobId, output, replies, mode).effects, "Done");
  }

  /** As written, a poll that finds every job ended while the output is a
      directory writes Done and the backend ids and then raises NameError
      in the sandbox resolution; as intended the thread goes on. */
  lemma DirectoryOutputAfterDone(w: Watch, jobId: int, output: string, replies: Replies)
    requires !w.counting && replies.step2.Ok? && replies.step3.Ok? && replies.step3.value.stdout != ""
    requires |FindEnded(replies.step3.value.stdout)| == w.numberJobs
    requires exists h :: h in replies.local.glob(output) && replies.local.isDir(h)
    ensures Poll(w, jobId, output, replies, AsWritten)
      == Step([SetStatus("Done"), SetBackendIds(FindEnded(replies.step3.value.stdout))], Raised(NameError))
    ensures Poll(w, jobId, output, replies, Intended).next == Returned(w)
  {
    assert !NoDirectoryHit(replies.local.glob(output), replies.local);
    var sandbox := UpdateSandbox(jobId, output, replies.local, replies.upload, AsWritten);
    assert sandbox == ([], Raised(NameError));
    assert [SetStatus("Done"), SetBackendIds(FindEnded(replies.step3.value.stdout))] + [] ==
      [SetStatus("Done"), SetBackendIds(FindEnded(replies.step3.value.stdout))];
  }

  /** A poll that finds the job done writes Done once. */
  lemma DoneOnce(w: Watch, jobId: int, output: string, replies: Replies, mode: Mode)
    requires !w.counting
    requires SetStatus("Done") in Poll(w, jobId, output, replies, mode).effects
    ensures CountStatus(Poll(w, jobId, output, replies, mode).effects, "Done") == 1
  {
    var effects := Poll(w, jobId, output, replies, mode).effects;
    var sandbox := UpdateSandbox(jobId, output, replies.local, replies.upload, mode);
    var found := FindEnded(replies.step3.value.stdout);
    assert effects == [SetStatus("Done"), SetBackendIds(found)] + sandbox.0;
    CountStatusAbsent(sandbox.0, "Done");
    CountStatusConcat([SetStatus("Done"), SetBackendIds(found)], sandbox.0, "Done");
  }

  /** The Done branch has no exit: a poll that writes Done and goes on is
      followed, for the same answers, by another that writes Done again. */
  lemma DoneRepeats(w: Watch, jobId: int, output: string, replies: Replies, mode: Mode)
    requires !w.counting
    requires SetStatus("Done") in Poll(w, jobId, output, replies, mode).effects
    requires Poll(w, jobId, output, replies, mode).next.Returned?
    ensures CountStatus(RunFrom(w, jobId, output, [replies, replies], mode).0, "Done") == 2
  {
    var step := Poll(w, jobId, output, replies, mode);
    assert step.next.value == w;
    var effects := step.effects;
    DoneOnce(w, jobId, output, replies, mode);
    assert [replies, replies][0] == replies && [replies, replies][1..] == [replies];
    assert [replies][0] == replies && [replies][1..] == [];
    var second := RunFrom(w, jobId, output, [replies], mode);
    assert RunFrom(w, jobId, output, [], mode) == ([], Returned(w));
    assert second == (effects + [], Returned(w));
    assert effects + [] == effects;
    assert RunFrom(w, jobId, output, [replies, replies], mode).0 == effects + second.0;
    CountStatusConcat(effects, second.0, "Done");
  }

  /** Done is written exactly when step3 lists one ended job per job: the
      count of matches is the count of terminated lines mentioning one. */
  lemma DoneWhenAllLinesEnded(w: Watch, jobId: int, output: string, replies: Replies, mode: Mode)
    requires !w.counting && replies.step2.Ok? && replies.step3.Ok?
    ensures SetStatus("Done") in Poll(w, jobId, output, replies, mode).effects <==>
      replies.step3.value.stdout != ""
      && |Filter(TerminatedLines(replies.step3.value.stdout), MentionsJob)| == w.numberJobs
  {
    EndedCountsLines(replies.step3.value.stdout);
  }

  /** A step1 answer `<words> = <digits>` with a non-zero number ends the
      counting: the number is kept and the job is Running. */
  lemma Step1StartsJob(w: Watch, jobId: int, output: string, replies: Replies, mode: Mode,
                       before: string, after: string)
    requires w.counting && replies.step1.Ok?
    requires replies.step1.value.stdout == before + "=" + after && '=' !in before && '=' !in after
    requires IsDigits(Strip(after)) && DigitsValue(Strip(after)) != 0
    ensures Poll(w, jobId, output, replies, mode)
         == Step([SetStatus("Running")], Returned(Watch(false, DigitsValue(Strip(after)))))
  {
    var stdout := replies.step1.value.stdout;
    assert stdout == before + ['='] + after;
    SplitAfterWord(before, after, '=');
    SplitNoSep(after, '=');
    assert Split(stdout, '=') == [before, after];
  }
}
