/** Report generation and report download. */
module Reports {
  import opened Wrappers
  import opened Json
  import opened Api
  import Decimal
  import Strings
  import Validation

  /**
   * The id of a generated report: with 201, `message` is a location whose
   * last '/'-separated segment is the id, `int(message.split('/')[-1])`.
   */
  function ReportIdFrom(resp: Response): (r: Outcome<int>)
    ensures r.Ok? ==> resp.code == 201
    ensures resp.code != 201 ==> r == ServerErrorFrom(resp.code, resp.json, "")
    ensures r.Ok? || r.ServerError? || r.Malformed?
    ensures resp.code == 201 ==> r.Ok? || r.Malformed?
    ensures resp.code == 201 ==>
      (r.Ok? <==> (resp.json.Some? && Field(resp.json.value, "message").Some?
                   && Field(resp.json.value, "message").value.JString?
                   && Decimal.ParseInt(Strings.LastSegment(Field(resp.json.value, "message").value.s, '/')).Some?))
    ensures r.Ok? ==>
      (resp.json.Some? && Field(resp.json.value, "message").Some?
       && Field(resp.json.value, "message").value.JString?
       && Decimal.ParseInt(Strings.LastSegment(Field(resp.json.value, "message").value.s, '/')) == Some(r.value))
  {
    if resp.code != 201 then ServerErrorFrom(resp.code, resp.json, "")
    else match resp.json
      case Some(body) =>
        (match Field(body, "message")
         case Some(JString(location)) =>
           (match Decimal.ParseInt(Strings.LastSegment(location, '/'))
            case Some(id) => Ok(id)
            case None => Malformed)
         case _ => Malformed)
      case None => Malformed
  }

  /** A location ending in "/" and the decimal text of `n` names report `n`, whatever precedes it. */
  lemma ReportIdFromLocation(resp: Response, prefix: string, n: int)
    requires resp.code == 201 && resp.json.Some?
    requires Field(resp.json.value, "message") == Some(JString(prefix + "/" + Decimal.IntToString(n)))
    ensures ReportIdFrom(resp) == Ok(n)
  {
    if '/' in Decimal.IntToString(n) {
      Decimal.IntToStringAlphabet(n, '/');
    }
    Strings.LastPieceAfterSeparator(prefix, '/', Decimal.IntToString(n));
    Decimal.ParseIntRoundTrip(n);
  }

  /** The location ".../report/17" names report 17. */
  lemma ReportIdOfSampleLocation(resp: Response)
    requires resp.code == 201
    requires resp.json == Some(JObject(map["message" := JString(".../report/17")]))
    ensures ReportIdFrom(resp) == Ok(17)
  {
    assert Decimal.IntToString(17) == "17";
    assert ".../report/17" == ".../report" + "/" + "17";
    ReportIdFromLocation(resp, ".../report", 17);
  }

  /**
   * `report_trigger_generation`: refuses a format outside the five report
   * formats before asking anything; otherwise asks for the report and reads
   * its id from the answer.
   */
  function ReportTriggerGeneration(server: Server, uploadId: int, format: string): (r: Exchange<int>)
    ensures r.outcome.InvalidParameter? <==> format !in Validation.ReportFormats
    ensures format !in Validation.ReportFormats ==> r == Exchange([], InvalidParameter(Validation.FormatRejected + format))
    ensures format in Validation.ReportFormats ==>
      r.calls == [TriggerReport(uploadId, format)] && r.outcome == ReportIdFrom(server(TriggerReport(uploadId, format)))
  {
    if format !in Validation.ReportFormats then Exchange([], InvalidParameter(Validation.FormatRejected + format))
    else
      var call := TriggerReport(uploadId, format);
      Exchange([call], ReportIdFrom(server(call)))
  }

  /**
   * `download_report` as written: the body is asked for as raw bytes, and on
   * a status other than 200 and 503 the source calls `.get` on those bytes,
   * which raises `AttributeError` instead of `FossologyError`.
   */
  function DownloadReportAsWritten(server: Server, reportId: int): (r: Exchange<seq<uint8>>)
    ensures r.calls == [GetReport(reportId)]
    ensures var resp := server(GetReport(reportId));
      && (resp.code == 200 ==> r.outcome == Ok(resp.content))
      && (resp.code == 503 ==> r.outcome == RetryAfterFrom(resp.headers))
      && (resp.code != 200 && resp.code != 503 ==> r.outcome == Malformed)
  {
    var call := GetReport(reportId);
    var resp := server(call);
    Exchange([call], if resp.code == 503 then RetryAfterFrom(resp.headers)
                     else if resp.code != 200 then Malformed
                     else Ok(resp.content))
  }

  /**
   * `download_report` as evidently intended: the raw report bytes, "retry
   * later" while the report is being rendered, and otherwise a server error
   * carrying the status (and the decoded message when there is one).
   */
  function DownloadReport(server: Server, reportId: int): (r: Exchange<seq<uint8>>)
    ensures r.calls == [GetReport(reportId)]
    ensures var resp := server(GetReport(reportId));
      && (r.outcome.Ok? <==> resp.code == 200)
      && (r.outcome.Ok? ==> r.outcome.value == resp.content)
      && (resp.code == 503 ==> r.outcome == RetryAfterFrom(resp.headers))
      && (r.outcome.ServerError? <==> resp.code != 200 && resp.code != 503)
      && (r.outcome.ServerError? ==> r.outcome.code == Some(resp.code))
  {
    var call := GetReport(reportId);
    var resp := server(call);
    var message := if resp.json.Some? then MessageOr(resp.json.value, "") else JString("");
    Exchange([call], if resp.code == 503 then RetryAfterFrom(resp.headers)
                     else if resp.code != 200 then ServerError(Some(resp.code), message)
                     else Ok(resp.content))
  }

  /**
   * A server that answers a report download with 404 and an error object:
   * the source as written raises an uncaught `AttributeError`, the intended
   * behaviour is a server error with status 404.
   */
  lemma DownloadErrorLost(server: Server, reportId: int)
    requires server(GetReport(reportId)).code == 404
    requires server(GetReport(reportId)).json == Some(JObject(map["message" := JString("Report not found")]))
    ensures DownloadReportAsWritten(server, reportId).outcome == Malformed
    ensures DownloadReport(server, reportId).outcome == ServerError(Some(404), JString("Report not found"))
  {
  }

  /**
   * A report still being rendered: 503 with `Retry-After: n` tells the
   * caller to wait `n` seconds, and 503 without the header to wait 3.
   */
  lemma DownloadNotReady(server: Server, reportId: int, n: int)
    requires server(GetReport(reportId)).code == 503
    requires var h := server(GetReport(reportId)).headers;
      ("Retry-After" in h ==> h["Retry-After"] == Decimal.IntToString(n))
      && ("Retry-After" !in h ==> n == DefaultRetryAfter)
    ensures DownloadReport(server, reportId).outcome == RetryAfter(n)
    ensures DownloadReportAsWritten(server, reportId).outcome == RetryAfter(n)
  {
    RetryAfterSeconds<seq<uint8>>(server(GetReport(reportId)).headers, n);
  }
}
