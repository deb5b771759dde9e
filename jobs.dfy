/** Job scheduling and the job status poll. */
module Jobs {
  import opened Wrappers
  import opened Json
  import opened Api
  import Validation

  /** `for n in names: conf.update({n: True})`, starting from an empty map. */
  method FlagMap(names: seq<string>) returns (flags: map<string, bool>)
    ensures flags.Keys == set n | n in names
    ensures forall n :: n in flags ==> flags[n]
  {
    flags := map[];
    for i := 0 to |names|
      invariant flags.Keys == set n | n in names[..i]
      invariant forall n :: n in flags ==> flags[n]
    {
      assert names[..i + 1] == names[..i] + [names[i]];
      flags := flags[names[i] := true];
    }
    assert names[..|names|] == names;
  }

  /**
   * `schedule_job`: the analyses are checked first, and a bad analysis is
   * reported alone even when a decider is bad too; only then the deciders.
   * A valid request posts a configuration flagging exactly the requested
   * analyses and deciders, and the server creates the job with 201,
   * answering its id in `message`.
   */
  method ScheduleJob(server: Server, uploadId: int, folderId: int, analysis: seq<string>, decider: seq<string>)
    returns (r: Exchange<int>)
    ensures Validation.Invalid(analysis, Validation.JobAnalyses) != [] ==>
      r == Exchange([], InvalidParameter(Validation.Rejection(Validation.AnalysisRejected,
                                                              Validation.Invalid(analysis, Validation.JobAnalyses))))
    ensures Validation.Invalid(analysis, Validation.JobAnalyses) == [] && Validation.Invalid(decider, Validation.JobDeciders) != [] ==>
      r == Exchange([], InvalidParameter(Validation.Rejection(Validation.DeciderRejected,
                                                              Validation.Invalid(decider, Validation.JobDeciders))))
    ensures Validation.Invalid(analysis, Validation.JobAnalyses) == [] && Validation.Invalid(decider, Validation.JobDeciders) == [] ==>
      && |r.calls| == 1 && r.calls[0].PostJob?
      && r.calls[0].uploadId == uploadId && r.calls[0].folderId == folderId
      && r.calls[0].config.analysis.Keys == (set a | a in analysis)
      && r.calls[0].config.decider.Keys == (set d | d in decider)
      && (forall a :: a in r.calls[0].config.analysis ==> r.calls[0].config.analysis[a])
      && (forall d :: d in r.calls[0].config.decider ==> r.calls[0].config.decider[d])
      && r.outcome == CreatedId(server(r.calls[0]), "None")
  {
    var badAnalysis := Validation.Invalid(analysis, Validation.JobAnalyses);
    if |badAnalysis| > 0 {
      return Exchange([], InvalidParameter(Validation.Rejection(Validation.AnalysisRejected, badAnalysis)));
    }
    var badDecider := Validation.Invalid(decider, Validation.JobDeciders);
    if |badDecider| > 0 {
      return Exchange([], InvalidParameter(Validation.Rejection(Validation.DeciderRejected, badDecider)));
    }
    var analysisFlags := FlagMap(analysis);
    var deciderFlags := FlagMap(decider);
    var call := PostJob(uploadId, folderId, JobConfig(analysisFlags, deciderFlags));
    r := Exchange([call], CreatedId(server(call), "None"));
  }

  /** `results["status"]` of a job response: `None` where Python raises. */
  function Status(resp: Response): (r: Option<Json>)
    ensures r.Some? <==> resp.json.Some? && resp.json.value.JObject? && "status" in resp.json.value.fields
    ensures r.Some? ==> r.value == resp.json.value.fields["status"]
  {
    match resp.json
    case Some(body) => Field(body, "status")
    case None => None
  }

  /**
   * `job_completed`: a failed job raises `FossologyJobFailure` with its id,
   * a completed job answers `true`, a job in any other state `false`. On a
   * status other than 200 the source passes the server's message where the
   * error code belongs; the model keeps no code for it.
   */
  function JobCompleted(server: Server, jobId: int): (r: Exchange<bool>)
    ensures r.calls == [GetJob(jobId)]
    ensures var resp := server(GetJob(jobId));
      && (resp.code != 200 ==> r.outcome.ServerError? || r.outcome.Malformed?)
      && (r.outcome.JobFailure? <==> resp.code == 200 && Status(resp) == Some(JString("Failed")))
      && (r.outcome.JobFailure? ==> r.outcome.job == jobId)
      && (r.outcome == Ok(true) <==> resp.code == 200 && Status(resp) == Some(JString("Completed")))
      && (r.outcome == Ok(false) <==>
            resp.code == 200 && Status(resp).Some? && Status(resp).value != JString("Failed")
            && Status(resp).value != JString("Completed"))
      && (resp.code == 200 && Status(resp).None? ==> r.outcome == Malformed)
      && (resp.code != 200 ==> (r.outcome.ServerError? <==> resp.json.Some? && resp.json.value.JObject?))
      && (r.outcome.ServerError? ==> r.outcome.code == None)
  {
    var call := GetJob(jobId);
    var resp := server(call);
    if resp.code != 200 then
      Exchange([call], if resp.json.Some? && resp.json.value.JObject? then ServerError(None, JString("")) else Malformed)
    else match Status(resp)
      case None => Exchange([call], Malformed)
      case Some(status) =>
        Exchange([call], if status == JString("Failed") then JobFailure(jobId) else Ok(status == JString("Completed")))
  }
}
