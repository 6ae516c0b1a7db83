/**
  `GET /api/voice-preview` (app/api/voice-preview/route.ts): a cache-aside lookup of a
  voice's preview clip. Speech generation is a parameter: the URL it produced, or
  `None` when it threw. Whether the cache read and the save fail are parameters too.
 */
module VoicePreviewRoute {
  import opened Wrappers
  import opened VoicePreviews

  /** The request: a URL that does not parse, or the `voice_id` query parameter (absent = `null`). */
  datatype Request = Malformed | Query(voiceId: Option<string>)

  datatype Response =
    | BadRequest          // 400, missing voice_id
    | Served(url: string, cached: bool)
    | GenerateFailed      // 500 from the inner catch
    | InternalError       // 500 from the outer catch

  /** The voice id when the query carries a truthy one. */
  function RequestedId(req: Request): (r: Option<string>)
    ensures r.Some? <==> req.Query? && req.voiceId.Some? && req.voiceId.value != ""
    ensures r.Some? ==> r.value == req.voiceId.value
  {
    if req.Query? && req.voiceId.Some? && req.voiceId.value != "" then req.voiceId else None
  }

  /** The response and the table after the request. */
  function Handled(rows: Rows, req: Request, readFails: bool, generated: Option<string>, saveFails: bool)
    : (r: (Response, Rows))
  {
    if req.Malformed? then (InternalError, rows)
    else if RequestedId(req).None? then (BadRequest, rows)
    else
      var voiceId := RequestedId(req).value;
      var cachedUrl := PreviewRead(rows, voiceId, readFails);
      if cachedUrl.Some? && cachedUrl.value != "" then (Served(cachedUrl.value, true), rows)
      else if generated.None? then (GenerateFailed, rows)
      else
        var saved := PreviewSaved(rows, voiceId, generated.value, saveFails);
        if saved.Err? then (GenerateFailed, rows)
        else (Served(generated.value, false), saved.value)
  }

  /** A request is a hit when the read succeeds and finds a non-empty URL. */
  predicate Hit(rows: Rows, voiceId: string, readFails: bool) {
    !readFails && voiceId in rows && rows[voiceId] != ""
  }

  /** A missing or empty `voice_id` is a 400 that touches nothing. */
  lemma MissingIdIsBadRequest(rows: Rows, voiceId: Option<string>, readFails: bool, generated: Option<string>, saveFails: bool)
    requires voiceId.None? || voiceId == Some("")
    ensures Handled(rows, Query(voiceId), readFails, generated, saveFails) == (BadRequest, rows)
  {
  }

  /** A hit returns the cached URL marked cached, changes nothing and ignores the generator. */
  lemma HitServedFromCache(rows: Rows, voiceId: string, readFails: bool, generated: Option<string>, saveFails: bool)
    requires voiceId != "" && Hit(rows, voiceId, readFails)
    ensures Handled(rows, Query(Some(voiceId)), readFails, generated, saveFails) == (Served(rows[voiceId], true), rows)
  {
    assert PreviewRead(rows, voiceId, readFails) == Some(rows[voiceId]);
  }

  /** A miss (no row, an empty URL, or a failed read) generates, saves, and returns the new URL uncached. */
  lemma MissGeneratesAndSaves(rows: Rows, voiceId: string, readFails: bool, url: string)
    requires voiceId != "" && !Hit(rows, voiceId, readFails)
    ensures Handled(rows, Query(Some(voiceId)), readFails, Some(url), false) == (Served(url, false), rows[voiceId := url])
  {
  }

  /** On a miss, a failed generation or a failed save is a 500 and the table is unchanged. */
  lemma FailureIsServerError(rows: Rows, voiceId: string, readFails: bool, generated: Option<string>, saveFails: bool)
    requires voiceId != "" && !Hit(rows, voiceId, readFails)
    requires generated.None? || saveFails
    ensures Handled(rows, Query(Some(voiceId)), readFails, generated, saveFails) == (GenerateFailed, rows)
  {
  }

  /** After a successful miss with a non-empty URL, the next request for that voice is a hit with that URL. */
  lemma NextRequestHits(rows: Rows, voiceId: string, readFails: bool, url: string,
                        generated': Option<string>, saveFails': bool)
    requires voiceId != "" && url != "" && !Hit(rows, voiceId, readFails)
    ensures var after := Handled(rows, Query(Some(voiceId)), readFails, Some(url), false).1;
      Hit(after, voiceId, false) &&
      Handled(after, Query(Some(voiceId)), false, generated', saveFails') == (Served(url, true), after)
  {
    MissGeneratesAndSaves(rows, voiceId, readFails, url);
    SaveThenGet(rows, voiceId, url, voiceId);
  }

  /** Only a successful miss writes, and then only the requested voice's row. */
  lemma WritesOnlyRequestedVoice(rows: Rows, req: Request, readFails: bool, generated: Option<string>, saveFails: bool)
    ensures var (resp, after) := Handled(rows, req, readFails, generated, saveFails);
      (after != rows ==> resp.Served? && !resp.cached) &&
      forall id :: id in rows && (RequestedId(req) != Some(id)) ==> id in after && after[id] == rows[id]
  {
  }

  /** The handler, reading and writing the preview table. */
  method Get(table: PreviewTable, req: Request, readFails: bool, generated: Option<string>, saveFails: bool)
    returns (resp: Response)
    modifies table
    ensures (resp, table.rows) == Handled(old(table.rows), req, readFails, generated, saveFails)
  {
    if req.Malformed? {
      return InternalError;
    }
    var voiceId := req.voiceId;
    if voiceId.None? || voiceId.value == "" {
      return BadRequest;
    }
    var cachedUrl := table.GetVoicePreview(voiceId.value, readFails);
    if cachedUrl.Some? && cachedUrl.value != "" {
      return Served(cachedUrl.value, true);
    }
    if generated.None? {
      return GenerateFailed;
    }
    var ok := table.SaveVoicePreview(voiceId.value, generated.value, saveFails);
    if !ok {
      return GenerateFailed;
    }
    resp := Served(generated.value, false);
  }
}
