/** The Deepgram voice catalogue (lib/integrations/deepgram/voices.ts). */
module Voices {
  import opened Wrappers

  /** A `DeepgramVoice`. */
  datatype Voice = Voice(id: string, name: string, model: string, language: string, description: Option<string>)

  function Aura(name: string, id: string, description: string): Voice {
    Voice(id, name, "aura", "en", Some(description))
  }

  /** `DEEPGRAM_VOICES`: ten Aura voices, then Echo and Pulse. */
  const DeepgramVoices: seq<Voice> := [
    Aura("Asteria", "aura-asteria-en", "Female, warm and friendly"),
    Aura("Luna", "aura-luna-en", "Female, calm and soothing"),
    Aura("Stella", "aura-stella-en", "Female, energetic and bright"),
    Aura("Athena", "aura-athena-en", "Female, confident and clear"),
    Aura("Hera", "aura-hera-en", "Female, authoritative and strong"),
    Aura("Orion", "aura-orion-en", "Male, deep and resonant"),
    Aura("Arcas", "aura-arcas-en", "Male, warm and approachable"),
    Aura("Perseus", "aura-perseus-en", "Male, confident and clear"),
    Aura("Zeus", "aura-zeus-en", "Male, powerful and commanding"),
    Aura("Apollo", "aura-apollo-en", "Male, energetic and vibrant"),
    Voice("echo-en", "Echo", "echo", "en", Some("Neutral, balanced voice")),
    Voice("pulse-en", "Pulse", "pulse", "en", Some("Energetic and dynamic"))
  ]

  /** `getDeepgramVoices()`: the whole list when Deepgram is configured, else none. */
  function GetDeepgramVoices(available: bool): (r: seq<Voice>)
    ensures available ==> r == DeepgramVoices
    ensures !available ==> r == []
  {
    if available then DeepgramVoices else []
  }

  /** `voices.find(v => v.id === id)`: the first voice with exactly this id. */
  function Find(voices: seq<Voice>, id: string): Option<Voice> {
    if voices == [] then None
    else if voices[0].id == id then Some(voices[0])
    else Find(voices[1..], id)
  }

  /** `getVoiceById(id)`. */
  function GetVoiceById(id: string): Option<Voice> {
    Find(DeepgramVoices, id)
  }

  /** `find` gives a voice with the id if there is one, the first such, and nothing otherwise. */
  lemma {:induction false} FindSpec(voices: seq<Voice>, id: string)
    ensures Find(voices, id).None? <==> forall i :: 0 <= i < |voices| ==> voices[i].id != id
    ensures Find(voices, id).Some? ==>
      exists i :: 0 <= i < |voices| && voices[i] == Find(voices, id).value && voices[i].id == id
                  && forall j :: 0 <= j < i ==> voices[j].id != id
  {
    if voices != [] && voices[0].id != id {
      FindSpec(voices[1..], id);
      if Find(voices, id).Some? {
        var i :| 0 <= i < |voices[1..]| && voices[1..][i] == Find(voices, id).value && voices[1..][i].id == id
                 && forall j :: 0 <= j < i ==> voices[1..][j].id != id;
        assert voices[i + 1] == voices[1..][i];
        forall j | 0 <= j < i + 1
          ensures voices[j].id != id
        {
          if j > 0 {
            assert voices[j] == voices[1..][j - 1];
          }
        }
      } else {
        forall i | 0 <= i < |voices|
          ensures voices[i].id != id
        {
          if i > 0 {
            assert voices[i] == voices[1..][i - 1];
          }
        }
      }
    } else if voices != [] {
      assert voices[0] == Find(voices, id).value;
    }
  }

  /** No two voices share an id. */
  lemma IdsDistinct()
    ensures forall i, j :: 0 <= i < j < |DeepgramVoices| ==> DeepgramVoices[i].id != DeepgramVoices[j].id
  {
  }

  /** Every voice is English, and every id starting with `aura-` belongs to the Aura model. */
  lemma CatalogueShape()
    ensures |DeepgramVoices| == 12
    ensures forall i :: 0 <= i < |DeepgramVoices| ==> DeepgramVoices[i].language == "en"
    ensures forall i :: 0 <= i < |DeepgramVoices| && |DeepgramVoices[i].id| >= 5 && DeepgramVoices[i].id[..5] == "aura-" ==>
      DeepgramVoices[i].model == "aura"
  {
    assert DeepgramVoices[10].id[..5] == "echo-";
    assert DeepgramVoices[11].id[..5] == "pulse";
  }

  /** The lookup is exact: it finds the catalogue's voice with that id, or nothing if no voice has it. */
  lemma GetVoiceByIdExact(id: string)
    ensures GetVoiceById(id).Some? <==> exists i :: 0 <= i < |DeepgramVoices| && DeepgramVoices[i].id == id
    ensures forall i :: 0 <= i < |DeepgramVoices| && DeepgramVoices[i].id == id ==> GetVoiceById(id) == Some(DeepgramVoices[i])
  {
    FindSpec(DeepgramVoices, id);
    IdsDistinct();
  }

  /** Every id starts with a lower-case letter. */
  lemma IdsStartLowerCase()
    ensures forall i :: 0 <= i < |DeepgramVoices| ==> |DeepgramVoices[i].id| > 0 && 'a' <= DeepgramVoices[i].id[0] <= 'z'
  {
  }

  /** Case matters: `aura-asteria-en` is a voice, `AURA-ASTERIA-EN` is not. */
  lemma LookupIsCaseSensitive()
    ensures GetVoiceById("aura-asteria-en") == Some(DeepgramVoices[0])
    ensures GetVoiceById("AURA-ASTERIA-EN").None?
  {
    assert DeepgramVoices[0].id == "aura-asteria-en";
    IdsStartLowerCase();
    var upper := "AURA-ASTERIA-EN";
    assert upper[0] == 'A';
    FindSpec(DeepgramVoices, upper);
  }
}
