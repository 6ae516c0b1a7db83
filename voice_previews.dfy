/**
  The `voice_previews` table (lib/supabase/voicePreviews.ts): one audio URL per voice id.
  Whether a query reports an error is a parameter of each call; the `updated_at`
  timestamp is not modelled.
 */
module VoicePreviews {
  import opened Wrappers

  type Rows = map<string, string>

  /** `getVoicePreview(voiceId)`: the stored URL, or `null` on a missing row or any error. */
  function PreviewRead(rows: Rows, voiceId: string, fails: bool): (r: Option<string>)
    ensures r.Some? <==> !fails && voiceId in rows
    ensures r.Some? ==> r.value == rows[voiceId]
  {
    if fails || voiceId !in rows then None else Some(rows[voiceId])
  }

  /** `saveVoicePreview(voiceId, url)`: an upsert keyed on the voice id, or the rethrown error. */
  function PreviewSaved(rows: Rows, voiceId: string, audioUrl: string, fails: bool): (r: Result<Rows>)
    ensures fails <==> r.Err?
    ensures r.Ok? ==> voiceId in r.value && r.value[voiceId] == audioUrl
    ensures r.Ok? ==> forall id :: id in rows && id != voiceId ==> id in r.value && r.value[id] == rows[id]
    ensures r.Ok? ==> r.value.Keys == rows.Keys + {voiceId}
  {
    if fails then Err("Error saving voice preview") else Ok(rows[voiceId := audioUrl])
  }

  /** `hasVoicePreview(voiceId)`: a row was found, whatever URL it holds. */
  function HasPreview(rows: Rows, voiceId: string, fails: bool): (r: bool)
    ensures r <==> !fails && voiceId in rows
  {
    PreviewRead(rows, voiceId, fails) != None
  }

  /** A saved URL reads back, replacing any earlier one; other voices keep theirs. */
  lemma SaveThenGet(rows: Rows, voiceId: string, audioUrl: string, other: string)
    ensures PreviewRead(PreviewSaved(rows, voiceId, audioUrl, false).value, voiceId, false) == Some(audioUrl)
    ensures other != voiceId ==>
      PreviewRead(PreviewSaved(rows, voiceId, audioUrl, false).value, other, false) == PreviewRead(rows, other, false)
    ensures HasPreview(PreviewSaved(rows, voiceId, audioUrl, false).value, voiceId, false)
  {
  }

  /** Saving twice is saving the second URL once. */
  lemma SaveOverwrites(rows: Rows, voiceId: string, first: string, second: string)
    ensures PreviewSaved(PreviewSaved(rows, voiceId, first, false).value, voiceId, second, false)
         == PreviewSaved(rows, voiceId, second, false)
  {
    assert rows[voiceId := first][voiceId := second] == rows[voiceId := second];
  }

  /** A stored empty URL still counts as a preview for `hasVoicePreview`. */
  lemma EmptyUrlStillPresent(rows: Rows, voiceId: string)
    requires voiceId in rows && rows[voiceId] == ""
    ensures HasPreview(rows, voiceId, false)
    ensures PreviewRead(rows, voiceId, false) == Some("")
  {
  }

  /** The table as the server sees it. */
  class PreviewTable {
    var rows: Rows

    constructor (initial: Rows)
      ensures rows == initial
    {
      rows := initial;
    }

    method GetVoicePreview(voiceId: string, fails: bool) returns (r: Option<string>)
      ensures r == PreviewRead(rows, voiceId, fails)
    {
      if fails || voiceId !in rows {
        r := None;
      } else {
        r := Some(rows[voiceId]);
      }
    }

    /** Returns false when the upsert failed (the source rethrows); the table is then unchanged. */
    method SaveVoicePreview(voiceId: string, audioUrl: string, fails: bool) returns (ok: bool)
      modifies this
      ensures ok == PreviewSaved(old(rows), voiceId, audioUrl, fails).Ok?
      ensures ok ==> rows == PreviewSaved(old(rows), voiceId, audioUrl, fails).value
      ensures !ok ==> rows == old(rows)
    {
      ok := !fails;
      if ok {
        rows := rows[voiceId := audioUrl];
      }
    }

    method HasVoicePreview(voiceId: string, fails: bool) returns (r: bool)
      ensures r == HasPreview(rows, voiceId, fails)
    {
      var preview := GetVoicePreview(voiceId, fails);
      r := preview != None;
    }
  }
}
