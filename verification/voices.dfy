/** The voice tables of `renderer/constants/voices.js`: the six selectable TTS
    voices and their mapping onto the realtime service's voice names. */
module Voices {
  import opened Common

  datatype VoiceOption = VoiceOption(code: string, name: string, desc: string)

  const VoiceOptions: seq<VoiceOption> := [
    VoiceOption("alloy", "Alloy", "Neutral"),
    VoiceOption("echo", "Echo", "Male"),
    VoiceOption("fable", "Fable", "British"),
    VoiceOption("onyx", "Onyx", "Deep male"),
    VoiceOption("nova", "Nova", "Female"),
    VoiceOption("shimmer", "Shimmer", "Soft female")
  ]

  /** `realtimeVoiceMap`: TTS voice code to realtime voice name. */
  const RealtimeVoiceMap: map<string, string> := map[
    "alloy" := "alloy",
    "echo" := "echo",
    "fable" := "sage",
    "onyx" := "ash",
    "nova" := "coral",
    "shimmer" := "shimmer"
  ]

  /** The names the realtime service is ever asked to speak with. */
  const RealtimeVoices: set<string> := {"alloy", "echo", "sage", "ash", "coral", "shimmer"}

  /** `voiceOptions.find(v => v.code === code)`: the first option with that code. */
  function Find(options: seq<VoiceOption>, code: string): (r: Option<VoiceOption>)
    ensures r.Some? ==> r.value in options && r.value.code == code
    ensures r.None? ==> forall v :: v in options ==> v.code != code
  {
    if |options| == 0 then None
    else if options[0].code == code then Some(options[0])
    else Find(options[1..], code)
  }

  /** `getVoice(code)`: the listed option with that code, else Nova. */
  function GetVoice(code: string): (v: VoiceOption)
    ensures v in VoiceOptions
    ensures (exists i :: 0 <= i < |VoiceOptions| && VoiceOptions[i].code == code) ==> v.code == code
    ensures (forall i :: 0 <= i < |VoiceOptions| ==> VoiceOptions[i].code != code) ==> v == VoiceOptions[4]
  {
    match Find(VoiceOptions, code)
    case Some(o) => o
    case None => VoiceOptions[4]
  }

  /** `getRealtimeVoice(code)`: the mapped name, or `'alloy'` for an unknown code. */
  function GetRealtimeVoice(code: string): (name: string)
    ensures name in RealtimeVoices
    ensures code !in RealtimeVoiceMap ==> name == "alloy"
  {
    if code in RealtimeVoiceMap then RealtimeVoiceMap[code] else "alloy"
  }

  /** The mapping table, entry by entry: three voices are renamed, the others keep
      their name. */
  lemma RealtimeMapping()
    ensures GetRealtimeVoice("fable") == "sage"
    ensures GetRealtimeVoice("onyx") == "ash"
    ensures GetRealtimeVoice("nova") == "coral"
    ensures GetRealtimeVoice("alloy") == "alloy"
    ensures GetRealtimeVoice("echo") == "echo"
    ensures GetRealtimeVoice("shimmer") == "shimmer"
  {
  }

  /** Every selectable voice has an entry in the realtime map, so a listed choice
      never silently falls back to `'alloy'`. */
  lemma EveryOptionMapped()
    ensures forall v :: v in VoiceOptions ==> v.code in RealtimeVoiceMap
  {
  }

  /** The default voice of `getVoice` is the option with code `'nova'`. */
  lemma DefaultIsNova(code: string)
    requires forall v :: v in VoiceOptions ==> v.code != code
    ensures GetVoice(code).code == "nova"
  {
  }
}
