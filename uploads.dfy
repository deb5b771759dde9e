/** Upload creation, deletion, and the summary and license downloads of an upload. */
module Uploads {
  import opened Wrappers
  import opened Json
  import opened Api
  import Decimal
  import Strings
  import Validation

  /**
   * `upload`, past reading and encoding the file: the server creates the
   * upload with 201 and answers its id in `message`.
   */
  function Upload(server: Server, filename: string, folderId: int, description: string): (r: Exchange<int>)
    ensures r.calls == [PostUpload(folderId, filename, description)]
    ensures r.outcome.Ok? ==> server(PostUpload(folderId, filename, description)).code == 201
    ensures var resp := server(PostUpload(folderId, filename, description));
      resp.code != 201 ==> r.outcome == ServerErrorFrom(resp.code, resp.json, "")
    ensures r.outcome.Ok? || r.outcome.ServerError? || r.outcome.Malformed?
    ensures r.outcome == CreatedId(server(PostUpload(folderId, filename, description)), "")
  {
    var call := PostUpload(folderId, filename, description);
    Exchange([call], CreatedId(server(call), ""))
  }

  /** The id the server announces with 201 is the id `upload` returns. */
  lemma UploadReturnsAnnouncedId(server: Server, filename: string, folderId: int, description: string, id: int)
    requires server(PostUpload(folderId, filename, description)).code == 201
    requires server(PostUpload(folderId, filename, description)).json == Some(JObject(map["message" := JString(Decimal.IntToString(id))]))
    ensures Upload(server, filename, folderId, description).outcome == Ok(id)
  {
    CreatedIdReadsMessage(server(PostUpload(folderId, filename, description)), "", id);
  }

  /**
   * `upload_delete`: answers whether the server did NOT accept the deletion
   * with 202, so `true` signals failure. The body is never read, so nothing
   * is raised.
   */
  function UploadDelete(server: Server, uploadId: int): (r: Exchange<bool>)
    ensures r.calls == [DeleteUpload(uploadId)]
    ensures r.outcome.Ok?
    ensures !r.outcome.value <==> server(DeleteUpload(uploadId)).code == 202
  {
    var call := DeleteUpload(uploadId);
    Exchange([call], Ok(server(call).code != 202))
  }

  /** `upload_get_summary`: the decoded summary, or "retry later" while the server computes it. */
  function UploadGetSummary(server: Server, uploadId: int): (r: Exchange<Option<Json>>)
    ensures r.calls == [GetSummary(uploadId)]
    ensures var resp := server(GetSummary(uploadId));
      && (resp.code == 200 ==> r.outcome == Ok(resp.json))
      && (resp.code == 503 ==> r.outcome == RetryAfterFrom(resp.headers))
      && (resp.code != 200 && resp.code != 503 ==> r.outcome == ServerErrorFrom(resp.code, resp.json, ""))
  {
    var call := GetSummary(uploadId);
    var resp := server(call);
    Exchange([call], AwaitBody(resp, resp.json))
  }

  /**
   * A summary still being computed: 503 with `Retry-After: n` tells the
   * caller to wait `n` seconds, and 503 without the header to wait 3.
   */
  lemma SummaryNotReady(server: Server, uploadId: int, n: int)
    requires server(GetSummary(uploadId)).code == 503
    requires var h := server(GetSummary(uploadId)).headers;
      ("Retry-After" in h ==> h["Retry-After"] == Decimal.IntToString(n))
      && ("Retry-After" !in h ==> n == DefaultRetryAfter)
    ensures UploadGetSummary(server, uploadId).outcome == RetryAfter(n)
  {
    RetryAfterSeconds<Option<Json>>(server(GetSummary(uploadId)).headers, n);
  }

  /**
   * `upload_get_licenses`: refuses any agent outside the six license agents
   * before asking anything; otherwise asks for the findings of all the agents
   * and reads the answer like the summary.
   */
  function UploadGetLicenses(server: Server, uploadId: int, agents: seq<string>, containers: bool): (r: Exchange<Option<Json>>)
    ensures r.outcome.InvalidParameter? <==> exists i :: 0 <= i < |agents| && agents[i] !in Validation.LicenseAgents
    ensures r.outcome.InvalidParameter? ==>
      r.calls == [] && r.outcome.message == Validation.Rejection(Validation.AgentsRejected, Validation.Invalid(agents, Validation.LicenseAgents))
    ensures !r.outcome.InvalidParameter? ==>
      var call := GetLicenses(uploadId, Strings.Join(agents, ','), containers);
      var resp := server(call);
      && r.calls == [call]
      && (resp.code == 200 ==> r.outcome == Ok(resp.json))
      && (resp.code == 503 ==> r.outcome == RetryAfterFrom(resp.headers))
      && (resp.code != 200 && resp.code != 503 ==> r.outcome == ServerErrorFrom(resp.code, resp.json, ""))
  {
    var bad := Validation.Invalid(agents, Validation.LicenseAgents);
    if |bad| > 0 then
      Exchange([], InvalidParameter(Validation.Rejection(Validation.AgentsRejected, bad)))
    else
      var call := GetLicenses(uploadId, Strings.Join(agents, ','), containers);
      var resp := server(call);
      Exchange([call], AwaitBody(resp, resp.json))
  }
}
