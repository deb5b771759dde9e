/**
 * Folder and upload lookup: the first-match scan over a listing, the folder
 * lookup over one listing and the upload lookup over numbered pages.
 */
module Lookup {
  import opened Wrappers
  import opened Json
  import opened Api

  /** How a scan over a listing ends. `Broken` is the Python exception raised on a malformed entry. */
  datatype ScanResult = Found(id: int) | NotFound | Broken

  /** An entry the scan steps over: an object whose `key` field is present and is not `target`. */
  predicate Skips(entry: Json, key: string, target: string)
  {
    entry.JObject? && key in entry.fields && entry.fields[key] != JString(target)
  }

  /** An entry the scan stops at with `id`: its `key` field is `target` and `int(entry["id"])` is `id`. */
  predicate Hits(entry: Json, key: string, target: string, id: int)
  {
    entry.JObject? && key in entry.fields && entry.fields[key] == JString(target)
    && "id" in entry.fields && ToInt(entry.fields["id"]) == Some(id)
  }

  /**
   * `for e in filter(lambda e: e[key] == target, entries): return int(e["id"])`:
   * entries are looked at in order, lazily, so nothing after the first match
   * is read; a non-object entry or one without `key` makes Python raise.
   */
  function ScanEntries(entries: seq<Json>, key: string, target: string): (r: ScanResult)
    ensures r == NotFound <==> forall i :: 0 <= i < |entries| ==> Skips(entries[i], key, target)
  {
    if |entries| == 0 then NotFound
    else
      var e := entries[0];
      if !e.JObject? || key !in e.fields then Broken
      else if e.fields[key] != JString(target) then
        var rest := ScanEntries(entries[1..], key, target);
        assert forall i :: 1 <= i < |entries| ==> entries[i] == entries[1..][i - 1];
        rest
      else if "id" !in e.fields then Broken
      else match ToInt(e.fields["id"])
        case Some(id) => Found(id)
        case None => Broken
  }

  /** The scan answers the id of the first entry that matches, once every entry before it was stepped over. */
  lemma {:induction false} ScanFindsFirstHit(entries: seq<Json>, key: string, target: string, k: nat, id: int)
    requires k < |entries| && Hits(entries[k], key, target, id)
    requires forall j :: 0 <= j < k ==> Skips(entries[j], key, target)
    ensures ScanEntries(entries, key, target) == Found(id)
  {
    if k > 0 {
      ScanFindsFirstHit(entries[1..], key, target, k - 1, id);
    }
  }

  /** Conversely, a found id is that of an entry that matches, and every entry before it was stepped over. */
  lemma {:induction false} FoundIsFirstHit(entries: seq<Json>, key: string, target: string) returns (k: nat)
    requires ScanEntries(entries, key, target).Found?
    ensures k < |entries| && Hits(entries[k], key, target, ScanEntries(entries, key, target).id)
    ensures forall j :: 0 <= j < k ==> Skips(entries[j], key, target)
  {
    var e := entries[0];
    if e.fields[key] == JString(target) {
      k := 0;
    } else {
      var k' := FoundIsFirstHit(entries[1..], key, target);
      k := k' + 1;
    }
  }

  /**
   * Iterating over a decoded body the way `filter(..., results)` does: a list
   * yields its entries; an empty object or empty string yields nothing; a
   * non-empty object or string yields strings, which `e[key]` rejects; any
   * other value (or no body) is not iterable.
   */
  function ScanBody(body: Option<Json>, key: string, target: string): (r: ScanResult)
    ensures body.Some? && body.value.JArray? ==> r == ScanEntries(body.value.items, key, target)
    ensures r.Found? ==> body.Some? && body.value.JArray?
    ensures body.None? || !(body.value.JArray? || body.value.JObject? || body.value.JString?) ==> r == Broken
    ensures body == Some(JObject(map[])) || body == Some(JString("")) ==> r == NotFound
    ensures (body.Some? && (body.value.JObject? || body.value.JString?)
             && body != Some(JObject(map[])) && body != Some(JString(""))) ==> r == Broken
  {
    match body
    case Some(JArray(entries)) => ScanEntries(entries, key, target)
    case Some(JObject(fields)) => if |fields| == 0 then NotFound else Broken
    case Some(JString(s)) => if |s| == 0 then NotFound else Broken
    case _ => Broken
  }

  /** The first-match loop over a listing. */
  method FirstMatch(body: Option<Json>, key: string, target: string) returns (r: ScanResult)
    ensures r == ScanBody(body, key, target)
  {
    if !(body.Some? && body.value.JArray?) {
      return ScanBody(body, key, target);
    }
    var entries := body.value.items;
    var i := 0;
    while i < |entries|
      invariant 0 <= i <= |entries|
      invariant ScanEntries(entries, key, target) == ScanEntries(entries[i..], key, target)
    {
      var e := entries[i];
      if !e.JObject? || key !in e.fields {
        return Broken;
      }
      if e.fields[key] == JString(target) {
        if "id" !in e.fields {
          return Broken;
        }
        var id := ToInt(e.fields["id"]);
        if id.None? {
          return Broken;
        }
        return Found(id.value);
      }
      assert entries[i..][1..] == entries[i + 1..];
      i := i + 1;
    }
    return NotFound;
  }

  /** What a listing response ends in once the scan is done: the id, no match, or the raised error. */
  function Listed(scan: ScanResult): Outcome<Option<int>>
  {
    match scan
    case Found(id) => Ok(Some(id))
    case NotFound => Ok(None)
    case Broken => Malformed
  }

  /** `get_folder_id`: the id of the first folder called `name`, if any. */
  method GetFolderId(server: Server, name: string) returns (r: Exchange<Option<int>>)
    ensures r.calls == [ListFolders]
    ensures var resp := server(ListFolders);
      r.outcome == if resp.code != 200 then ServerErrorFrom(resp.code, resp.json, "")
                   else Listed(ScanBody(resp.json, "name", name))
  {
    var resp := server(ListFolders);
    if resp.code != 200 {
      return Exchange([ListFolders], ServerErrorFrom(resp.code, resp.json, ""));
    }
    var found := FirstMatch(resp.json, "name", name);
    r := Exchange([ListFolders], Listed(found));
  }

  /** `int(headers.get('X-Total-Pages', 1))`. */
  function TotalPages(resp: Response): Option<int>
  {
    HeaderInt(resp.headers, "X-Total-Pages", 1)
  }

  /** What one page of the upload listing decides: ask for the next page, or stop with an outcome. */
  datatype PageStep = NextPage | Stop(outcome: Outcome<Option<int>>)

  function PageVerdict(resp: Response, filename: string, page: int): (r: PageStep)
    ensures r == NextPage <==>
      resp.code == 200 && ScanBody(resp.json, "uploadname", filename) == NotFound
      && TotalPages(resp).Some? && page < TotalPages(resp).value
    ensures resp.code == 200 && ScanBody(resp.json, "uploadname", filename).Found? ==>
      r == Stop(Ok(Some(ScanBody(resp.json, "uploadname", filename).id)))
    ensures r == Stop(Ok(None)) <==>
      resp.code == 200 && ScanBody(resp.json, "uploadname", filename) == NotFound
      && TotalPages(resp).Some? && page >= TotalPages(resp).value
    ensures resp.code != 200 ==> r == Stop(ServerErrorFrom(resp.code, resp.json, ""))
    ensures resp.code == 200 && ScanBody(resp.json, "uploadname", filename) == Broken ==> r == Stop(Malformed)
    ensures (resp.code == 200 && ScanBody(resp.json, "uploadname", filename) == NotFound
             && TotalPages(resp).None?) ==> r == Stop(Malformed)
  {
    if resp.code != 200 then Stop(ServerErrorFrom(resp.code, resp.json, ""))
    else
      var scan := ScanBody(resp.json, "uploadname", filename);
      if !scan.NotFound? then Stop(Listed(scan))
      else match TotalPages(resp)
        case None => Stop(Malformed)
        case Some(total) => if page < total then NextPage else Stop(Ok(None))
  }

  /**
   * The upload lookup asked for pages 1, 2, ..., k in that order, every page
   * before the k-th sent it on to the next one, and the k-th page stopped it
   * with `outcome`.
   */
  ghost predicate PagedScan(server: Server, filename: string, folderId: int, calls: seq<ApiCall>, outcome: Outcome<Option<int>>)
  {
    |calls| >= 1
    && (forall i :: 0 <= i < |calls| ==> calls[i] == ListUploads(folderId, i + 1))
    && (forall i :: 0 <= i < |calls| - 1 ==> PageVerdict(server(calls[i]), filename, i + 1) == NextPage)
    && PageVerdict(server(calls[|calls| - 1]), filename, |calls|) == Stop(outcome)
  }

  /**
   * `get_upload_id`: the id of the first upload called `filename` in the
   * folder, page by page. The ghost `k` is a page on which the lookup would
   * stop; there is one exactly when the source's loop ends.
   */
  method GetUploadId(server: Server, filename: string, folderId: int, ghost k: int) returns (r: Exchange<Option<int>>)
    requires 1 <= k && PageVerdict(server(ListUploads(folderId, k)), filename, k).Stop?
    ensures PagedScan(server, filename, folderId, r.calls, r.outcome)
  {
    var page := 1;
    var calls: seq<ApiCall> := [];
    while true
      invariant page == |calls| + 1
      invariant forall i :: 0 <= i < |calls| ==> calls[i] == ListUploads(folderId, i + 1)
      invariant forall i :: 0 <= i < |calls| ==> PageVerdict(server(calls[i]), filename, i + 1) == NextPage
      invariant page <= k
      decreases k - page
    {
      var call := ListUploads(folderId, page);
      var resp := server(call);
      calls := calls + [call];
      if resp.code != 200 {
        return Exchange(calls, ServerErrorFrom(resp.code, resp.json, ""));
      }
      var found := FirstMatch(resp.json, "uploadname", filename);
      if !found.NotFound? {
        return Exchange(calls, Listed(found));
      }
      var total := TotalPages(resp);
      if total.None? {
        return Exchange(calls, Malformed);
      }
      if page < total.value {
        page := page + 1;
      } else {
        return Exchange(calls, Ok(None));
      }
    }
  }

  /**
   * Page requests stop at the first page that decides: if pages 1..k-1 each
   * send the lookup on and page k stops it, the lookup made exactly k
   * requests and ended as page k says.
   */
  lemma StopsAtFirstDecidingPage(server: Server, filename: string, folderId: int,
                                 calls: seq<ApiCall>, outcome: Outcome<Option<int>>, k: nat, o: Outcome<Option<int>>)
    requires PagedScan(server, filename, folderId, calls, outcome)
    requires 1 <= k
    requires forall p :: 1 <= p < k ==> PageVerdict(server(ListUploads(folderId, p)), filename, p) == NextPage
    requires PageVerdict(server(ListUploads(folderId, k)), filename, k) == Stop(o)
    ensures |calls| == k && outcome == o
  {
    var n := |calls|;
    assert calls[n - 1] == ListUploads(folderId, n);
    assert k <= n ==> calls[k - 1] == ListUploads(folderId, k);
  }

  /** A match on the first page that lists one is the answer: its id comes back after exactly that many requests. */
  lemma MatchOnPage(server: Server, filename: string, folderId: int, calls: seq<ApiCall>, outcome: Outcome<Option<int>>,
                    k: nat, entries: seq<Json>, j: nat, id: int)
    requires PagedScan(server, filename, folderId, calls, outcome)
    requires 1 <= k
    requires forall p :: 1 <= p < k ==> PageVerdict(server(ListUploads(folderId, p)), filename, p) == NextPage
    requires server(ListUploads(folderId, k)).code == 200
    requires server(ListUploads(folderId, k)).json == Some(JArray(entries))
    requires j < |entries| && Hits(entries[j], "uploadname", filename, id)
    requires forall i :: 0 <= i < j ==> Skips(entries[i], "uploadname", filename)
    ensures |calls| == k && outcome == Ok(Some(id))
  {
    ScanFindsFirstHit(entries, "uploadname", filename, j, id);
    StopsAtFirstDecidingPage(server, filename, folderId, calls, outcome, k, Ok(Some(id)));
  }
}
