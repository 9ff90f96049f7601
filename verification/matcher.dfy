/** The scheduler's job-to-endpoint matcher (`matchingJobsForBDSubmission`).

    A job is matched against one running endpoint either by its input
    dataset alone (no Arguments attribute) or by its Arguments string, whose
    first four space-separated tokens name software, version, high-level
    language and its version. The job database, the replica catalog and the
    ledger's vocabularies are inputs.
 */
module Matcher {
  import opened Base
  import opened Text
  import opened Ledger

  /** The software an endpoint runs. */
  datatype Identity = Identity(software: string, version: string, hllName: string, hllVersion: string)

  /** What the matcher returns.
      Admit             "OK"
      Invalid           "Error"
      SiteLacksSoftware "Dataset match with SiteName but Site doesn't have the software"
      NoSiteMatch       "Dataset does not match with any Site"
      CatalogFailure    an S_ERROR built from the catalog's answer */
  datatype Verdict = Admit | Invalid | SiteLacksSoftware | NoSiteMatch | CatalogFailure

  /** The matcher's outcome together with the dataset it leaves in
      `self.jobDataset`, which the dispatcher later passes on. */
  datatype Match = Match(dataset: string, outcome: Py<Verdict>)

  /** The Successful part of a replica-catalog answer: for each file, its
      replica site labels in iteration order. */
  type Replicas = map<string, seq<string>>

  /** The dataset of a job: the first input-data entry, or "" if none. */
  function DatasetOf(inputData: Result<seq<string>>): (d: string)
    ensures inputData.Ok? && |inputData.value| > 0 ==> d == inputData.value[0]
    ensures inputData.Err? || |inputData.value| == 0 ==> d == ""
  {
    if inputData.Ok? && inputData.value != [] then inputData.value[0] else ""
  }

  /** The replica sites of `dataset` in a catalog answer: None when the call
      failed or Successful is empty; KeyError when Successful lacks it. */
  function ReplicaSites(answer: Result<Replicas>, dataset: string): (r: Py<Option<seq<string>>>)
    ensures r == Returned(None) <==> answer.Err? || answer.value == map[]
    ensures r.Raised? <==> answer.Ok? && answer.value != map[] && dataset !in answer.value
    ensures r.Raised? ==> r.exception == KeyError
    ensures r.Returned? && r.value.Some? ==>
      answer.Ok? && dataset in answer.value && r.value.value == answer.value[dataset]
  {
    if answer.Err? || answer.value == map[] then Returned(None)
    else if dataset !in answer.value then Raised(KeyError)
    else Returned(Some(answer.value[dataset]))
  }

  predicate SomeSiteNamed(sites: seq<string>, name: string) {
    exists i :: 0 <= i < |sites| && Contains(sites[i], name)
  }

  /** The dataset-only loop: "OK" at the first site whose label contains the
      endpoint name; after a miss `returnExit` is set, and a loop that ends
      with it set gives the no-software message. None: the loop ended with
      the flag clear and control falls through. */
  function DatasetScan(sites: seq<string>, name: string, returnExit: bool): (r: Option<Verdict>)
    ensures r == Some(Admit) <==> SomeSiteNamed(sites, name)
    ensures r.None? <==> |sites| == 0 && !returnExit
    ensures r.Some? ==> r.value == Admit || r.value == SiteLacksSoftware
    decreases |sites|
  {
    if |sites| == 0 then (if returnExit then Some(SiteLacksSoftware) else None)
    else if Contains(sites[0], name) then Some(Admit)
    else
      var r := DatasetScan(sites[1..], name, true);
      assert forall i :: 0 < i < |sites| ==> sites[i] == sites[1..][i - 1];
      r
  }

  /** The argument loop: the decision is taken at the first site whose label
      contains the endpoint name, by whether the job's four tokens equal the
      endpoint's software. */
  function SoftwareScan(sites: seq<string>, name: string, softwareMatches: bool): (v: Verdict)
    ensures v == Admit <==> softwareMatches && SomeSiteNamed(sites, name)
    ensures v == NoSiteMatch <==> !SomeSiteNamed(sites, name)
    ensures v == SiteLacksSoftware <==> !softwareMatches && SomeSiteNamed(sites, name)
    decreases |sites|
  {
    if |sites| == 0 then NoSiteMatch
    else if Contains(sites[0], name) then (if softwareMatches then Admit else SiteLacksSoftware)
    else
      var v := SoftwareScan(sites[1..], name, softwareMatches);
      assert forall i :: 0 < i < |sites| ==> sites[i] == sites[1..][i - 1];
      v
  }

  /** The first four tokens equal the endpoint's software. */
  predicate TokensMatch(tokens: seq<string>, id: Identity)
    requires |tokens| >= 4
  {
    tokens[0] == id.software && tokens[1] == id.version
    && tokens[2] == id.hllName && tokens[3] == id.hllVersion
  }

  /** The tokens pass the three vocabulary checks. */
  predicate InVocabularies(tokens: seq<string>, vocab: Vocabularies) {
    |tokens| >= 3
    && vocab.software.Some? && tokens[0] in vocab.software.value
    && vocab.softwareVersions.Some? && tokens[1] in vocab.softwareVersions.value
    && vocab.highLevelLanguages.Some? && tokens[2] in vocab.highLevelLanguages.value
  }

  /** The argument path: three vocabulary checks in order (a token is
      indexed before its vocabulary is read), token 3 only indexed, then the
      catalog and the site scan. */
  function ArgumentPath(tokens: seq<string>, name: string, id: Identity,
                        answer: Result<Replicas>, dataset: string, vocab: Vocabularies)
    : (r: Py<Verdict>)
    requires |tokens| >= 1
    ensures r == Returned(Admit) ==>
      InVocabularies(tokens, vocab) && |tokens| >= 4 && TokensMatch(tokens, id)
      && answer.Ok? && dataset in answer.value && SomeSiteNamed(answer.value[dataset], name)
    ensures (InVocabularies(tokens, vocab) && |tokens| >= 4 && answer.Ok?
      && dataset in answer.value && TokensMatch(tokens, id)
      && SomeSiteNamed(answer.value[dataset], name)) ==> r == Returned(Admit)
  {
    if vocab.software.None? then Raised(AttributeError)
    else if tokens[0] !in vocab.software.value then Returned(Invalid)
    else if |tokens| < 2 then Raised(IndexError)
    else if vocab.softwareVersions.None? then Raised(AttributeError)
    else if tokens[1] !in vocab.softwareVersions.value then Returned(Invalid)
    else if |tokens| < 3 then Raised(IndexError)
    else if vocab.highLevelLanguages.None? then Raised(AttributeError)
    else if tokens[2] !in vocab.highLevelLanguages.value then Returned(Invalid)
    else if |tokens| < 4 then Raised(IndexError)
    else
      match ReplicaSites(answer, dataset)
      case Raised(e) => Raised(e)
      case Returned(None) => Returned(CatalogFailure)
      case Returned(Some(sites)) => Returned(SoftwareScan(sites, name, TokensMatch(tokens, id)))
  }

  /** `matchingJobsForBDSubmission(arguments, name, software..., jobid)`.
      `arguments` is None when the job has no Arguments attribute (the
      code's sentinel 0); `inputData` is getInputData(jobid); `replicas` is
      the catalog's getReplicas. Admission needs a replica site of the
      job's dataset whose label contains the endpoint name; on the argument
      path it also needs the four tokens to equal the endpoint's software. */
  function MatchJob(arguments: Option<string>, name: string, id: Identity,
                    inputData: Result<seq<string>>, replicas: string -> Result<Replicas>,
                    vocab: Vocabularies): (m: Match)
    ensures m.dataset == DatasetOf(inputData)
    ensures inputData.Err? ==> m.outcome == Returned(Invalid)
    ensures arguments.None? && m.dataset == "" ==> m.outcome == Returned(Invalid)
    ensures m.outcome == Returned(Admit) ==>
      inputData.Ok? && replicas(m.dataset).Ok? && m.dataset in replicas(m.dataset).value
      && SomeSiteNamed(replicas(m.dataset).value[m.dataset], name)
    ensures m.outcome == Returned(Admit) && arguments.Some? ==>
      var tokens := Split(arguments.value, ' ');
      |tokens| >= 4 && TokensMatch(tokens, id) && InVocabularies(tokens, vocab)
  {
    if inputData.Err? then Match("", Returned(Invalid))
    else
      var dataset := DatasetOf(inputData);
      if arguments.None? && dataset == "" then Match(dataset, Returned(Invalid))
      else if arguments.None? then
        match ReplicaSites(replicas(dataset), dataset)
        case Raised(e) => Match(dataset, Raised(e))
        case Returned(None) => Match(dataset, Returned(CatalogFailure))
        case Returned(Some(sites)) =>
          match DatasetScan(sites, name, false)
          case Some(v) => Match(dataset, Returned(v))
          // no site at all: control reaches re.split(' ', 0) and raises
          case None => Match(dataset, Raised(TypeError))
      else
        Match(dataset, ArgumentPath(Split(arguments.value, ' '), name, id,
                                    replicas(dataset), dataset, vocab))
  }

  /** Dataset-only path: once the catalog answered with the dataset's sites,
      the job is admitted exactly when some site label contains the endpoint
      name; a non-empty site list otherwise gives the no-software message,
      and an empty one raises. */
  lemma DatasetOnlyDecision(name: string, id: Identity, dataset: string,
                            replicas: string -> Result<Replicas>, vocab: Vocabularies)
    requires dataset != ""
    requires replicas(dataset).Ok? && dataset in replicas(dataset).value
    ensures var sites := replicas(dataset).value[dataset];
      var m := MatchJob(None, name, id, Ok([dataset]), replicas, vocab);
      (m.outcome == Returned(Admit) <==> SomeSiteNamed(sites, name))
      && (|sites| > 0 && !SomeSiteNamed(sites, name) ==> m.outcome == Returned(SiteLacksSoftware))
      && (|sites| == 0 ==> m.outcome == Raised(TypeError))
  {
    assert DatasetOf(Ok([dataset])) == dataset;
    assert replicas(dataset).value != map[];
  }

  /** A failing catalog call or an empty Successful map is an error result
      on both paths, once the argument tokens pass their checks. */
  lemma CatalogFailureIsError(arguments: Option<string>, name: string, id: Identity,
                              inputData: Result<seq<string>>, replicas: string -> Result<Replicas>,
                              vocab: Vocabularies)
    requires inputData.Ok?
    requires arguments.None? ==> DatasetOf(inputData) != ""
    requires arguments.Some? ==>
      var tokens := Split(arguments.value, ' ');
      InVocabularies(tokens, vocab) && |tokens| >= 4
    requires var answer := replicas(DatasetOf(inputData)); answer.Err? || answer.value == map[]
    ensures MatchJob(arguments, name, id, inputData, replicas, vocab).outcome == Returned(CatalogFailure)
  {
  }

  /** Argument path: with tokens that pass the vocabularies and a catalog
      answer that lists the dataset, the job is admitted exactly when the
      four tokens equal the endpoint's software and some site label contains
      the endpoint name, whichever site comes first; with no such site the
      outcome is the no-match message. */
  lemma ArgumentDecision(arguments: string, name: string, id: Identity,
                         inputData: Result<seq<string>>, replicas: string -> Result<Replicas>,
                         vocab: Vocabularies)
    requires inputData.Ok?
    requires var tokens := Split(arguments, ' '); InVocabularies(tokens, vocab) && |tokens| >= 4
    requires var d := DatasetOf(inputData); replicas(d).Ok? && d in replicas(d).value
    ensures var tokens := Split(arguments, ' ');
      var d := DatasetOf(inputData);
      var sites := replicas(d).value[d];
      var m := MatchJob(Some(arguments), name, id, inputData, replicas, vocab);
      (m.outcome == Returned(Admit) <==> TokensMatch(tokens, id) && SomeSiteNamed(sites, name))
      && (m.outcome == Returned(NoSiteMatch) <==> !SomeSiteNamed(sites, name))
  {
    var d := DatasetOf(inputData);
    assert replicas(d).value != map[];
  }

  /** With the vocabularies the ledger defines, a job that carries Arguments
      is never admitted: the software token can only equal the one-string
      literal, and reading the next vocabulary raises. */
  lemma AsWrittenArgumentsNeverAdmit(arguments: string, name: string, id: Identity,
                                     inputData: Result<seq<string>>, replicas: string -> Result<Replicas>)
    ensures MatchJob(Some(arguments), name, id, inputData, replicas, AsWrittenVocabularies).outcome
      in {Returned(Invalid), Raised(IndexError), Raised(AttributeError)}
  {
  }

  /** The vocabularies the matcher evidently expects: the software and
      language names the driver table dispatches on. */
  const IntendedVocabularies: Vocabularies := Vocabularies(
    Some(["hadoop", "twister"]), Some(["hdv1", "hdv2"]), Some(["none", "pig", "hive"]),
    Some(IntendedInstanceStates))

  /** The Arguments string of a job for endpoint software `id`, followed by
      its remaining arguments. */
  function ArgumentsFor(id: Identity, rest: string): string {
    id.software + " " + id.version + " " + id.hllName + " " + id.hllVersion + " " + rest
  }

  lemma {:induction false} ArgumentsTokens(id: Identity, rest: string)
    requires ' ' !in id.software && ' ' !in id.version && ' ' !in id.hllName && ' ' !in id.hllVersion
    ensures var tokens := Split(ArgumentsFor(id, rest), ' ');
      |tokens| >= 4 && tokens[..4] == [id.software, id.version, id.hllName, id.hllVersion]
  {
    var s4 := id.hllVersion + " " + rest;
    var s3 := id.hllName + " " + s4;
    var s2 := id.version + " " + s3;
    assert ArgumentsFor(id, rest) == id.software + [' '] + s2;
    SplitAfterWord(id.software, s2, ' ');
    assert s2 == id.version + [' '] + s3;
    SplitAfterWord(id.version, s3, ' ');
    assert s3 == id.hllName + [' '] + s4;
    SplitAfterWord(id.hllName, s4, ' ');
    assert s4 == id.hllVersion + [' '] + rest;
    SplitAfterWord(id.hllVersion, rest, ' ');
    var tokens := [id.software] + ([id.version] + ([id.hllName] + ([id.hllVersion] + Split(rest, ' '))));
    assert Split(ArgumentsFor(id, rest), ' ') == tokens;
    assert tokens[..4] == [id.software, id.version, id.hllName, id.hllVersion];
  }

  /** With the intended vocabularies, a job whose Arguments start with the
      endpoint's own software is admitted whenever a replica site of its
      dataset carries the endpoint name. */
  lemma IntendedVocabulariesAdmit(name: string, id: Identity, rest: string, dataset: string,
                                  replicas: string -> Result<Replicas>)
    requires id.software in ["hadoop", "twister"] && id.version in ["hdv1", "hdv2"]
    requires id.hllName in ["none", "pig", "hive"] && ' ' !in id.hllVersion
    requires replicas(dataset).Ok? && dataset in replicas(dataset).value
    requires SomeSiteNamed(replicas(dataset).value[dataset], name)
    ensures MatchJob(Some(ArgumentsFor(id, rest)), name, id, Ok([dataset]), replicas,
                     IntendedVocabularies).outcome == Returned(Admit)
  {
    var tokens := Split(ArgumentsFor(id, rest), ' ');
    assert |tokens| >= 4 && InVocabularies(tokens, IntendedVocabularies) && TokensMatch(tokens, id) by {
      ArgumentsTokens(id, rest);
      assert tokens[0] == id.software && tokens[1] == id.version;
      assert tokens[2] == id.hllName && tokens[3] == id.hllVersion;
    }
    assert DatasetOf(Ok([dataset])) == dataset;
    ArgumentDecision(ArgumentsFor(id, rest), name, id, Ok([dataset]), replicas, IntendedVocabularies);
  }
}
