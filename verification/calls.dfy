/** Python positional-argument binding at the call sites whose argument
    counts do not agree with the callee's parameter list.

    A call `f(a1, ..., an)` to a `def f(self, p1, ..., pm)` with no default
    values and no `*args` binds `pi` to `ai` when `n == m` and raises
    TypeError otherwise, before the callee's body runs. The modelled
    operations take each call's arguments as a record instead; this module
    records what the code as written does at those calls.
 */
module Calls {
  import opened Base

  /** Binding positional arguments to named parameters. */
  function BindPositional<V>(params: seq<string>, args: seq<V>): (r: Py<seq<(string, V)>>)
    ensures r.Returned? <==> |params| == |args|
    ensures r.Raised? ==> r.exception == TypeError
    ensures r.Returned? ==> |r.value| == |params|
    ensures r.Returned? ==>
      forall i :: 0 <= i < |params| ==> r.value[i].0 == params[i] && r.value[i].1 == args[i]
  {
    if |params| != |args| then Raised(TypeError)
    else Returned(seq(|params|, i requires 0 <= i < |params| => (params[i], args[i])))
  }

  /** A call site: the callee's parameters (without `self`) and the
      expressions passed. */
  datatype CallSite = CallSite(params: seq<string>, args: seq<string>)

  /** `pool.generateJobAndQueueIt(director.submitBigDataJobs, args = (...))`
      in the scheduler against `SoftBigDataDirector.submitBigDataJobs`. */
  const SchedulerToSubmit := CallSite(
    ["endpoint", "numBigDataJobsAllowed", "runningSiteName", "NameNode",
     "BigDataSoftware", "BigDataSoftwareVersion", "HLLName", "HLLVersion",
     "PublicIP", "Port", "jobIds", "runningEndPointName", "JobName", "User"],
    ["endpoint", "numBigDataJobsAllowed", "runningSiteName", "NameNode",
     "BigDataSoftware", "BigDataSoftwareVersion", "HLLName", "HLLVersion",
     "PublicIP", "Port", "jobIDs", "runningEndPointName", "jobName", "User",
     "self.jobDataset", "UsePilot", "IsInteractive"])

  /** `self._submitBigDataJobs(...)` in `submitBigDataJobs` against
      `BigDataDirector._submitBigDataJobs`. */
  const SubmitToDriverTable := CallSite(
    ["NameNode", "Port", "jobID", "PublicIP", "runningEndPointName", "User", "JobName",
     "dataset", "UsePilot", "IsInteractive"],
    ["NameNode", "Port", "jobIds", "PublicIP", "runningEndPointName", "User", "JobName"])

  /** `HadoopV1(...)` in the driver table against `HadoopV1.__init__`. */
  const DriverTableToHadoopV1 := CallSite(
    ["NameNode", "Port", "jobID", "PublicIP", "User", "JobName"],
    ["NameNode", "Port", "jobID", "PublicIP", "User", "JobName", "dataset"])

  /** `HadoopV1cli.jobSubmit(...)` in `HadoopV2.submitNewBigJob` against
      `HadoopV1Client.jobSubmit`. */
  const HadoopV2ToClientSubmit := CallSite(
    ["tempPath", "jobXMLName"],
    ["tempPath", "jobXMLName", "proxy['chain']"])

  /** `HadoopV2(...)` in the driver table against `HadoopV2.__init__`: the
      counts agree, but the dataset lands in the `Arguments` parameter. */
  const DriverTableToHadoopV2 := CallSite(
    ["NameNode", "Port", "jobID", "PublicIP", "User", "JobName", "Arguments"],
    ["NameNode", "Port", "jobID", "PublicIP", "User", "JobName", "dataset"])

  function Call(site: CallSite): Py<seq<(string, string)>> {
    BindPositional(site.params, site.args)
  }

  /** The four mismatched calls raise TypeError whatever the values are:
      the scheduler passes 17 arguments to a 14-parameter method, the
      submit sequence 7 to a 10-parameter one, the driver table 7 to a
      6-parameter constructor, and HadoopV2 3 to a 2-parameter method. */
  lemma AsWrittenCallsRaise()
    ensures |SchedulerToSubmit.args| == 17 && |SchedulerToSubmit.params| == 14
    ensures |SubmitToDriverTable.args| == 7 && |SubmitToDriverTable.params| == 10
    ensures |DriverTableToHadoopV1.args| == 7 && |DriverTableToHadoopV1.params| == 6
    ensures |HadoopV2ToClientSubmit.args| == 3 && |HadoopV2ToClientSubmit.params| == 2
    ensures Call(SchedulerToSubmit) == Raised(TypeError)
    ensures Call(SubmitToDriverTable) == Raised(TypeError)
    ensures Call(DriverTableToHadoopV1) == Raised(TypeError)
    ensures Call(HadoopV2ToClientSubmit) == Raised(TypeError)
  {
  }

  /** The one call whose count agrees binds the dataset to the parameter
      HadoopV2 reads as the job's argument string. */
  lemma HadoopV2ReadsDatasetAsArguments()
    ensures Call(DriverTableToHadoopV2).Returned?
    ensures Call(DriverTableToHadoopV2).value[6] == ("Arguments", "dataset")
  {
  }
}
