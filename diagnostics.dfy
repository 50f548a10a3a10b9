/** The warnings `parse_musicxml` reports in `meta.warnings`, one constructor per message. */
module Diagnostics {
  import opened Voices

  datatype Warning =
    | RightFallback(fallback: VoiceKey)
    | RightLeadSelected(right: VoiceKey)
    | RightMultiVoice(rightVoice: string)
    | LeftSelected(left: VoiceKey)
    | LeftMultiVoice(leftVoice: string)
    | LeftMissing
    | ChordNotesExcluded
    | TempoFallback

  /** The message text of each warning. */
  function Message(w: Warning): string
  {
    match w
    case RightFallback(k) =>
      "Right-hand staff=1 not found; fallback to detected lead voice staff=" + k.staff + " voice=" + k.voice + "."
    case RightLeadSelected(k) => "Right-hand lead voice selected: staff=" + k.staff + " voice=" + k.voice + "."
    case RightMultiVoice(v) => "Detected multi-voice right hand; kept voice " + v + " on staff=1."
    case LeftSelected(k) => "Left-hand accompaniment voice selected: staff=" + k.staff + " voice=" + k.voice + "."
    case LeftMultiVoice(v) => "Detected multi-voice left hand; kept voice " + v + " on staff=2."
    case LeftMissing => "Left-hand staff=2 not detected; playback will use right hand only."
    case ChordNotesExcluded => "Detected chord notes; only lead note is kept in melody notes."
    case TempoFallback => "Tempo not found in score; fallback to 120 BPM."
  }
}
