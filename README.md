# Fossology REST client: decision logic

This project models `FossologyServer` from `lib/fossology.py`, a client for
the REST API of the Fossology license-scanning server. It does not model the
HTTP transport. It models what the client decides on either side of each
request:

- which caller input it refuses before sending anything (license agents, job
  analyses and deciders, report formats);
- which request it sends (the job configuration, the page numbers of the
  upload listing);
- how it reads the answer (which status code means success, "not ready yet"
  or an error, and how ids come out of the `message` field and out of a
  report location).

The server is a parameter, `Api.Server = ApiCall -> Response`: the response
the server gives to each request. A `Response` holds the status code, the
headers, the body decoded as JSON (`None` when decoding failed) and the raw
body bytes. Every operation returns an `Exchange`: the requests it issued, in
order, and its `Outcome`. The outcome is either the value or one of the
source's exceptions: `InvalidParameter` (`FossologyInvalidParameter`),
`ServerError` (`FossologyError`), `RetryAfter` (`FossologyRetryAfter`) or
`JobFailure` (`FossologyJobFailure`). A fifth failure, `Malformed`, stands for
the uncaught Python exception (`AttributeError`, `TypeError`, `KeyError`,
`ValueError`) that the source raises when a response lacks the expected
shape. Examples are a missing or undecodable body where `.get` or `[...]` is
applied, or a non-numeric value given to `int()`. The model does not recover
from these cases; it reports them.

Modules:

- `Wrappers`: the `Option` type.
- `Decimal`: Python's `int()` on text and `str()` on integers.
- `Strings`: `','.join` and `split('/')`.
- `Json`: decoded bodies.
- `Api`: the request and response shapes, the outcomes and the shared status
  rules.
- `Validation`: the enumerations and the list of invalid entries.
- `Lookup`: folder and upload lookup.
- `Uploads`, `Jobs`, `Reports`: the remaining operations.

`get_upload_id`, the first-match scan and the building of the job
configuration are loops in the source. They are methods with loop invariants
here. `get_folder_id` and `schedule_job` call those loops, so they are methods
too. Everything else is a function.

The 503 rule follows RFC 9110. Section 15.6.4 defines 503 Service
Unavailable. Section 10.2.3 defines `Retry-After`, which the client reads
only in its delay-seconds form.

Two behaviours of the source are worth noting:

- `schedule_job` checks the analyses and raises before it looks at the
  deciders, so a bad decider is not reported while an analysis is bad.
- `download_report` does not raise a server error for a status other than 200
  and 503; it raises `AttributeError` instead (see Findings).

## Model

| member | source | states |
|---|---|---|
| `Api.ServerErrorFrom` | lib/fossology.py:172-173 | an unexpected status is a server error that carries that status and the body's `message` (the default text when the body has none), and it arises exactly when the body is a decoded object; any other body makes `.get` raise |
| `Api.HeaderInt` | lib/fossology.py:138 | `int(headers.get(name, default))`: the default when the header is absent, otherwise the header text read by `int()` (a raise on empty or non-numeric text) |
| `Api.RetryAfterFrom` | lib/fossology.py:169-171 | a 503 raises "retry after" exactly when the `Retry-After` header is absent (3 seconds) or numeric (that many seconds); any other header value makes `int()` raise |
| `Api.RetryAfterSeconds` | lib/fossology.py:168-171 | on 503 the caller is told to wait the `Retry-After` value in seconds, or 3 when the header is absent |
| `Api.RetryAfterDateRaises` | lib/fossology.py:169 | a `Retry-After` value in the HTTP-date form makes `int()` raise, so only the delay-seconds form is read; the model's `ParseInt` refuses any value with a non-digit after its first character, and every HTTP-date has one |
| `Api.AwaitBody` | lib/fossology.py:165-174 | shared rule of the summary and license downloads: success exactly on 200, with the body unchanged; 503 is the `Retry-After` rule (its seconds, 3 without the header, a raise on an unreadable value); every other code is the server-error rule with an empty default message, carrying that code, or a raise when the body has no `.get`; no other outcome |
| `Api.CreatedId` | lib/fossology.py:154-158 | a creating call succeeds only on 201; on 201 it succeeds exactly when the body has a `message` that `int()` reads, with that value as the id, and raises otherwise (never a server error); any other status is the server-error rule with the given default |
| `Api.CreatedIdReadsMessage` | lib/fossology.py:158 | a 201 whose `message` is the decimal text of `n` yields the id `n` |
| `Decimal.ParseInt` | lib/fossology.py:245 | `int()` on text accepts exactly an optional sign followed by one or more decimal digits; a run of digits reads as its decimal value, a signed run reads as that value negated for '-' and unchanged for '+', so only a leading '-' gives a negative value |
| `Json.ToInt` | lib/fossology.py:116 | `int(v)` on a decoded value: a number is itself, a boolean is 1 or 0, a string is read by `int()`, and anything else raises |
| `Decimal.ParseIntRoundTrip` | lib/fossology.py:221 | `int(str(i)) == i` for every integer: ids written in decimal are read back unchanged |
| `Strings.Join` | lib/fossology.py:181 | `','.join(parts)`: empty for no parts; otherwise it starts with the first part, followed by the separator when there are more parts |
| `Strings.LastSegment` | lib/fossology.py:245 | `split('/')[-1]` holds no '/', ends the text, and is either the whole text or preceded by a '/' (the longest '/'-free end of the text) |
| `Strings.LastPieceIsSuffix` | lib/fossology.py:245 | the last piece of any split is an end of the text that is the whole text or follows a separator |
| `Strings.Split` | lib/fossology.py:245 | `split` returns at least one piece, no piece holds the separator, and a text without a separator is its own single piece |
| `Strings.SplitThenJoin` | lib/fossology.py:245 | joining the pieces of a split with the separator gives back the text |
| `Strings.JoinThenSplit` | lib/fossology.py:181 | joining separator-free names and splitting the result gives back exactly those names, in order |
| `Strings.LastPieceAfterSeparator` | lib/fossology.py:245 | `split('/')[-1]` of `a + "/" + b`, when `b` has no '/', is `b`, whatever `a` is |
| `Validation.Invalid` | lib/fossology.py:179 | the rejected list holds exactly the entries outside the enumeration, and it is empty if and only if every entry is allowed |
| `Validation.InvalidOfConcat` | lib/fossology.py:200 | the filter keeps input order: the invalid entries of `a + b` are those of `a` followed by those of `b` |
| `Validation.RejectionNamesInvalid` | lib/fossology.py:180-181 | the rejection message, after its prefix, splits on ',' into exactly the invalid entries, in input order |
| `Lookup.ScanEntries` | lib/fossology.py:115-120 | the scan finds nothing if and only if every entry is an object whose name field is present and differs from the target |
| `Lookup.ScanFindsFirstHit` | lib/fossology.py:115-118 | when the entries before the k-th are all stepped over and the k-th matches with a readable id, the scan returns that id |
| `Lookup.FoundIsFirstHit` | lib/fossology.py:134-137 | a returned id belongs to a matching entry, and every entry before that one was stepped over |
| `Lookup.ScanBody` | lib/fossology.py:134 | iterating `results` inside `filter`: a list is scanned entry by entry; an empty object or empty string yields no match; a non-empty object or string raises (`e[key]` on a key or character), as does no body, a number, a boolean or null; only a list can yield an id |
| `Lookup.FirstMatch` | lib/fossology.py:134-137 | the loop over a listing ends as the lazy `filter` scan does: the first match, no match, or a raise on the first malformed entry it reads |
| `Lookup.GetFolderId` | lib/fossology.py:109-120 | one folder listing is requested; a non-200 status is a server error carrying the status, or a raise when the body has no `.get`; otherwise the result is the id of the first folder with the given name, or none |
| `Lookup.GetUploadId` | lib/fossology.py:122-141 | on every server where the loop ends, the pages requested are 1, 2, ..., k in order; every page before the k-th had status 200, no match, a readable page count and a page number below that count; the k-th page decides the outcome |
| `Lookup.PageVerdict` | lib/fossology.py:130-141 | one pass of the page loop goes on to the next page exactly when the page has status 200, no match, a readable page count and a page number below it; it returns none exactly when the page number reaches the count; a match returns its id; a 200 page whose listing raises, or whose page count does not read, raises; a non-200 page is the server-error rule |
| `Lookup.StopsAtFirstDecidingPage` | lib/fossology.py:124-141 | when pages 1..k-1 each lead to the next page and page k decides, the lookup made exactly k requests and ended as page k decided |
| `Lookup.MatchOnPage` | lib/fossology.py:134-138 | when the first match is on page k, exactly k pages are requested and that upload's id is returned |
| `Uploads.Upload` | lib/fossology.py:143-158 | one POST is made and its answer is read by the creating-call rule (`CreatedId`): on 201 the id `int()` reads from `message`, or a raise; any other status is a server error carrying that status and the server's `message` (empty when absent), or a raise when the body has no `.get` |
| `Uploads.UploadReturnsAnnouncedId` | lib/fossology.py:154-158 | a 201 with `message` "42" (the decimal text of any id) makes `upload` return that id |
| `Uploads.UploadDelete` | lib/fossology.py:160-163 | never raises, and returns false exactly when the server answers 202, so true signals a failed deletion |
| `Uploads.UploadGetSummary` | lib/fossology.py:165-174 | one request; 200 returns the decoded body unchanged (none when it did not decode); 503 is "retry after"; any other status is a server error carrying it, or a raise when the body has no `.get` |
| `Uploads.SummaryNotReady` | lib/fossology.py:168-171 | a 503 summary with `Retry-After: n` yields "retry after n"; without the header it yields "retry after 3" |
| `Uploads.UploadGetLicenses` | lib/fossology.py:176-193 | refuses exactly when some agent is outside the six license agents, with no request and a message listing the invalid agents; otherwise makes one request for all agents and reads the answer like the summary |
| `Jobs.FlagMap` | lib/fossology.py:214-217 | the map built by the update loop has exactly the requested names as keys, every value true |
| `Jobs.ScheduleJob` | lib/fossology.py:195-221 | a bad analysis is reported alone, with no request, even when a decider is also bad; then a bad decider; valid input makes one POST with the upload and folder ids, whose configuration flags exactly the requested analyses and deciders; success only on 201, with the id read from `message` |
| `Jobs.Status` | lib/fossology.py:228-229 | `results["status"]` exists exactly when the body decoded to an object holding a `status` field, and is that field |
| `Jobs.JobCompleted` | lib/fossology.py:223-231 | "Failed" raises a job failure carrying the job id; the answer is true exactly for "Completed" and false for any other status; a 200 answer without a `status` field raises; a non-200 status is a server error (without a code) exactly when the body is an object, and a raise otherwise |
| `Reports.ReportIdFrom` | lib/fossology.py:242-246 | a report id is returned only on 201; on 201 it is returned exactly when `message` is text whose part after the last '/' `int()` reads, and that value is the id; otherwise 201 raises; any other status is the server-error rule |
| `Reports.ReportIdFromLocation` | lib/fossology.py:245 | a location ending in "/" followed by the decimal text of `n` yields report `n`, whatever precedes it |
| `Reports.ReportIdOfSampleLocation` | lib/fossology.py:245 | the location ".../report/17" yields report 17 |
| `Reports.ReportTriggerGeneration` | lib/fossology.py:233-246 | refuses exactly the formats outside the five report formats, with no request; otherwise makes one request and reads the id from the location |
| `Reports.DownloadReportAsWritten` | lib/fossology.py:248-257 | 200 returns the raw bytes; 503 is "retry after"; every other status raises, because `.get` is applied to bytes |
| `Reports.DownloadReport` | lib/fossology.py:248-257 | success exactly on 200, with the raw bytes; 503 is "retry after"; a server error exactly on every other status, carrying it |
| `Reports.DownloadErrorLost` | lib/fossology.py:255-256 | on a 404 with an error object, the source as written raises, while the intended behaviour is a server error with code 404 |
| `Reports.DownloadNotReady` | lib/fossology.py:251-254 | a 503 report with `Retry-After: n` yields "retry after n" (3 without the header) |

## Left out

- HTTP transport (lib/fossology.py:61-101): the `requests` calls, URL formatting, the bearer header and request headers as text. Each request is an `ApiCall` value, and the server is a function from request to response.
- The server as a function: within one operation every request is distinct, so nothing is lost there. A server whose answers change between separate calls matters only to a caller's polling loop, and no such loop exists in the client.
- JSON decoding: the decoded body is an input (`None` when decoding failed). JSON numbers are integers only; floats, and `int()` applied to a float, are not modelled.
- Header lookup: `requests` looks headers up without regard to case. The model looks up the exact names `X-Total-Pages` and `Retry-After`.
- Decimal.ParseInt: Python's `int()` also accepts surrounding whitespace, '_' between digits and non-ASCII digits. The model treats such text as a raise.
- Reading the file and the multipart encoding in `upload` (lib/fossology.py:145-153): these are file I/O and a foreign library. `PostUpload` records the file name, folder and description only.
- Logging (every `logger` call, including `logger.debug(1, ...)` at lines 117 and 136): these are diagnostics only.
- `get_api_version` and the `url` and `token` properties (lib/fossology.py:51-59, 103-107): plain pass-throughs.
- Lookup.GetUploadId: requires a page on which the lookup stops (a ghost page number `k`). Such a page exists exactly when the source's loop ends. The model does not cover the runs that never end, for example against a server whose `X-Total-Pages` always exceeds the page just read.
- Jobs.JobCompleted: on a non-200 status the source passes the server's message as the error code and an empty message. The model records `ServerError` with no code.
- The text of exceptions beyond what callers can match on: `FossologyRetryAfter`'s empty message, and the kind of Python exception behind `Malformed`.
- `upload_delete` keeps the source's polarity (`true` when the answer is not 202). It is documented, not corrected.

## Findings

| source | as written | input that shows it | evidently intended | confidence | as-written member | corrected member |
|---|---|---|---|---|---|---|
| lib/fossology.py:255-256 | for a status other than 200 and 503, `download_report` calls `results.get("message", "")` on the raw `bytes` body, which raises `AttributeError` | a report download answered with 404 and body `{"message": "Report not found"}` (`Reports.DownloadErrorLost`) | raise `FossologyError(404, ...)` as the other downloads do | high; not executed | `Reports.DownloadReportAsWritten` | `Reports.DownloadReport` |
