/**
 * What the domain operations of `FossologyServer` share: the requests they
 * issue, the response envelope the request primitives hand back, the
 * outcomes (a value or one of the exceptions), and the status rules used by
 * more than one operation.
 */
module Api {
  import opened Wrappers
  import opened Json
  import Decimal

  newtype uint8 = x: int | 0 <= x < 256

  /**
   * What `_api_get`, `_api_post` and `_api_delete` return: the status code,
   * the response headers, the body decoded as JSON (`None` when decoding
   * failed) and the raw body bytes (used when a binary body is asked for).
   */
  datatype Response = Response(code: int, headers: map<string, string>, json: Option<Json>, content: seq<uint8>)

  /** The job payload: every requested analysis and decider mapped to `true`. */
  datatype JobConfig = JobConfig(analysis: map<string, bool>, decider: map<string, bool>)

  /** One request to the REST API, standing for its verb, path, headers, query and payload. */
  datatype ApiCall =
    | ListFolders                                                     // GET /folders
    | ListUploads(folderId: int, page: int)                           // GET /uploads, headers folderId and page
    | PostUpload(folderId: int, filename: string, description: string) // POST /uploads, multipart file
    | DeleteUpload(uploadId: int)                                     // DELETE /uploads/{id}
    | GetSummary(uploadId: int)                                       // GET /uploads/{id}/summary
    | GetLicenses(uploadId: int, agent: string, containers: bool)     // GET /uploads/{id}/licenses
    | PostJob(uploadId: int, folderId: int, config: JobConfig)        // POST /jobs
    | GetJob(jobId: int)                                              // GET /jobs/{id}
    | TriggerReport(uploadId: int, format: string)                    // GET /report, headers uploadId and reportFormat
    | GetReport(reportId: int)                                        // GET /report/{id}, binary body

  /** The server as the client sees it: the response it gives to each request. */
  type Server = ApiCall -> Response

  /**
   * What an operation ends in: its value, or one of `FossologyInvalidParameter`,
   * `FossologyError`, `FossologyRetryAfter`, `FossologyJobFailure`. `Malformed`
   * is an uncaught Python exception raised while reading a response that does
   * not have the expected shape.
   */
  datatype Outcome<+T> =
    | Ok(value: T)
    | InvalidParameter(message: string)
    | ServerError(code: Option<int>, detail: Json)
    | RetryAfter(seconds: int)
    | JobFailure(job: int)
    | Malformed

  /** The requests an operation issued, in order, and how it ended. */
  datatype Exchange<+T> = Exchange(calls: seq<ApiCall>, outcome: Outcome<T>)

  /** `Retry-After` value assumed when the header is absent. */
  const DefaultRetryAfter := 3

  /** `int(headers.get(name, default))`: `None` where `int` raises. */
  function HeaderInt(headers: map<string, string>, name: string, default: int): (r: Option<int>)
    ensures name !in headers ==> r == Some(default)
    ensures name in headers ==> r == Decimal.ParseInt(headers[name])
    ensures name in headers && r.Some? ==> |headers[name]| > 0
  {
    if name in headers then Decimal.ParseInt(headers[name]) else Some(default)
  }

  /** `results.get("message", default)` on an object body. */
  function MessageOr(body: Json, default: string): Json
  {
    if body.JObject? && "message" in body.fields then body.fields["message"] else JString(default)
  }

  /**
   * `raise FossologyError(code, results.get("message", default))`: only an
   * object body has `.get`, so any other body (or none) makes Python raise.
   */
  function ServerErrorFrom<T>(code: int, body: Option<Json>, default: string): (r: Outcome<T>)
    ensures r.ServerError? || r.Malformed?
    ensures r.ServerError? <==> body.Some? && body.value.JObject?
    ensures r.ServerError? ==> r.code == Some(code)
    ensures r.ServerError? && "message" in body.value.fields ==> r.detail == body.value.fields["message"]
    ensures r.ServerError? && "message" !in body.value.fields ==> r.detail == JString(default)
  {
    if body.Some? && body.value.JObject? then ServerError(Some(code), MessageOr(body.value, default))
    else Malformed
  }

  /** `raise FossologyRetryAfter(int(headers.get("Retry-After", 3)))`. */
  function RetryAfterFrom<T>(headers: map<string, string>): (r: Outcome<T>)
    ensures r.RetryAfter? || r.Malformed?
    ensures r.RetryAfter? <==> HeaderInt(headers, "Retry-After", DefaultRetryAfter).Some?
    ensures r.RetryAfter? ==> r.seconds == HeaderInt(headers, "Retry-After", DefaultRetryAfter).value
    ensures "Retry-After" !in headers ==> r == RetryAfter(DefaultRetryAfter)
  {
    match HeaderInt(headers, "Retry-After", DefaultRetryAfter)
    case Some(n) => RetryAfter(n)
    case None => Malformed
  }

  /**
   * The delay the caller is told to wait is the `Retry-After` value in
   * seconds when the header holds one, and 3 when there is no header.
   */
  lemma RetryAfterSeconds<T>(headers: map<string, string>, n: int)
    requires "Retry-After" in headers ==> headers["Retry-After"] == Decimal.IntToString(n)
    requires "Retry-After" !in headers ==> n == DefaultRetryAfter
    ensures RetryAfterFrom<T>(headers) == RetryAfter(n)
  {
    Decimal.ParseIntRoundTrip(n);
  }

  /**
   * Only the delay-seconds form of `Retry-After` is read. An HTTP-date such as
   * "Wed, 21 Oct 2015 07:28:00 GMT" has a letter after its first character;
   * `ParseInt` refuses any value with a non-digit there, so it raises.
   */
  lemma RetryAfterDateRaises<T>(headers: map<string, string>, k: nat)
    requires "Retry-After" in headers
    requires 0 < k < |headers["Retry-After"]| && !Decimal.IsDigit(headers["Retry-After"][k])
    ensures RetryAfterFrom<T>(headers) == Malformed
  {
  }

  /**
   * The status rule of the summary and license downloads: 503 means
   * "not ready yet", 200 hands back the body unchanged, anything else is a
   * server error carrying the status, or a raise when the body has no `.get`.
   */
  function AwaitBody<T>(resp: Response, body: T): (r: Outcome<T>)
    ensures r.Ok? <==> resp.code == 200
    ensures r.Ok? ==> r.value == body
    ensures r.RetryAfter? || (resp.code == 503 && r.Malformed?) <==> resp.code == 503
    ensures r.ServerError? ==> resp.code != 200 && resp.code != 503 && r.code == Some(resp.code)
    ensures r.Ok? || r.RetryAfter? || r.ServerError? || r.Malformed?
    ensures resp.code == 503 ==> r == RetryAfterFrom(resp.headers)
    ensures resp.code != 200 && resp.code != 503 ==> r == ServerErrorFrom(resp.code, resp.json, "")
  {
    if resp.code == 503 then RetryAfterFrom(resp.headers)
    else if resp.code != 200 then ServerErrorFrom(resp.code, resp.json, "")
    else Ok(body)
  }

  /**
   * The rule of the creating calls (upload, job): 201 answers with the new id
   * as `int(results["message"])`; any other status is a server error.
   */
  function CreatedId(resp: Response, default: string): (r: Outcome<int>)
    ensures r.Ok? ==> resp.code == 201
    ensures resp.code != 201 ==> r == ServerErrorFrom(resp.code, resp.json, default)
    ensures r.Ok? || r.ServerError? || r.Malformed?
    ensures resp.code == 201 ==>
      (r.Ok? <==> resp.json.Some? && Field(resp.json.value, "message").Some?
                  && ToInt(Field(resp.json.value, "message").value).Some?)
    ensures resp.code == 201 && !r.Ok? ==> r == Malformed
    ensures r.Ok? ==> Some(r.value) == ToInt(Field(resp.json.value, "message").value)
  {
    if resp.code != 201 then ServerErrorFrom(resp.code, resp.json, default)
    else match resp.json
      case Some(body) =>
        (match Field(body, "message")
         case Some(m) => (match ToInt(m) case Some(id) => Ok(id) case None => Malformed)
         case None => Malformed)
      case None => Malformed
  }

  /** A 201 whose message is the decimal text of `n` yields the id `n`. */
  lemma CreatedIdReadsMessage(resp: Response, default: string, n: int)
    requires resp.code == 201
    requires resp.json.Some? && Field(resp.json.value, "message") == Some(JString(Decimal.IntToString(n)))
    ensures CreatedId(resp, default) == Ok(n)
  {
    Decimal.ParseIntRoundTrip(n);
  }
}
