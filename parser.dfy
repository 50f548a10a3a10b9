/**
 * The tail of `parse_musicxml`: the right- and left-hand voices are chosen from the
 * statistics, each hand's timeline is rendered, tie-merged and classified, the events of
 * both hands are sorted together, and the response is assembled.
 */
module Parser {
  import opened Wrappers
  import opened Ordering
  import opened Document
  import opened Voices
  import opened Timeline
  import opened Diagnostics
  import opened Render
  import opened Ties
  import opened Articulation
  import opened Playback

  /** `RecognizeResponse` with its `meta` fields inlined. */
  datatype Response = Response(
    tempo: int,
    timeSignature: string,
    notes: seq<RecognizedNote>,
    playbackEvents: seq<PlaybackEvent>,
    engine: string,
    inputType: string,
    warnings: seq<Warning>)

  /** `ValueError("No part found in MusicXML")`. */
  datatype ParseError = NoPart

  /** The tempo used when the score has none. */
  const DefaultTempo: int := 120

  // ---------------------------------------------------------------------------------------
  // Voice selection

  /** `len({voice for staff, voice in voice_stats if staff == s}) > 1`: two voices recorded on `staff`. */
  predicate SeveralVoices(stats: seq<VoiceStats>, staff: string)
  {
    exists i, j :: 0 <= i < |stats| && 0 <= j < |stats| && stats[i].key.staff == staff
      && stats[j].key.staff == staff && stats[i].key.voice != stats[j].key.voice
  }

  /** The chosen hands and the warnings that report the choice. */
  datatype Selection = Selection(right: Option<VoiceKey>, left: Option<VoiceKey>, warnings: seq<Warning>)

  /**
   * The right hand is the best voice on staff 1, else the lead voice of the whole score;
   * the left hand is the best voice on staff 2, if any.
   */
  function SelectVoices(stats: seq<VoiceStats>): (r: Selection)
    ensures r.right.None? <==> |stats| == 0
    ensures r.left.Some? ==> r.left.value.staff == "2"
    ensures (LeftMissing in r.warnings <==> r.left.None?) && 1 <= |r.warnings| <= 4
  {
    var inStaff := ChooseVoiceInStaff(stats, "1");
    var right := if inStaff.None? && |stats| > 0 then ChooseLeadVoice(stats) else inStaff;
    var left := ChooseVoiceInStaff(stats, "2");
    assert inStaff.None? ==> !SeveralVoices(stats, "1");
    ReportsLeftMissing(inStaff.None?, right, SeveralVoices(stats, "1"), left, SeveralVoices(stats, "2"));
    Selection(right, left, RightReport(inStaff.None?, right, SeveralVoices(stats, "1"))
                           + LeftReport(left, SeveralVoices(stats, "2")))
  }

  /** The right hand's warnings: the fallback, the selection, and several voices on staff 1. */
  function RightReport(fallback: bool, right: Option<VoiceKey>, several: bool): seq<Warning>
  {
    (if fallback && right.Some? then [RightFallback(right.value)] else [])
    + (if right.Some? then
         [RightLeadSelected(right.value)] + (if several then [RightMultiVoice(right.value.voice)] else [])
       else [])
  }

  /** The left hand's warnings: the selection and several voices on staff 2, or the hand missing. */
  function LeftReport(left: Option<VoiceKey>, several: bool): seq<Warning>
  {
    if left.Some? then
      [LeftSelected(left.value)] + (if several then [LeftMultiVoice(left.value.voice)] else [])
    else [LeftMissing]
  }

  /**
   * The right hand is missing only for empty statistics, is a recorded voice, and is on staff 1
   * whenever staff 1 has a voice; the left hand is a recorded voice on staff 2, missing exactly
   * when staff 2 has none.
   */
  lemma SelectionHands(stats: seq<VoiceStats>)
    ensures var r := SelectVoices(stats);
      && (r.right.None? <==> |stats| == 0)
      && (r.right.Some? ==> exists v :: v in stats && v.key == r.right.value)
      && ((exists v :: v in stats && v.key.staff == "1") ==> r.right.Some? && r.right.value.staff == "1")
      && (r.left.Some? ==> r.left.value.staff == "2" && exists v :: v in stats && v.key == r.left.value)
      && (r.left.None? <==> forall v :: v in stats ==> v.key.staff != "2")
  {
    var inStaff := ChooseVoiceInStaff(stats, "1");
    var right := if inStaff.None? && |stats| > 0 then ChooseLeadVoice(stats) else inStaff;
    var left := ChooseVoiceInStaff(stats, "2");
    assert right.Some? && inStaff.None? ==> exists i :: 0 <= i < |stats| && stats[i].key == right.value;
    assert forall v :: v in stats && v.key.staff == "1" ==> inStaff.Some? by {
      forall v | v in stats && v.key.staff == "1" ensures inStaff.Some? {
        var i :| 0 <= i < |stats| && stats[i] == v;
      }
    }
    assert left.None? <==> forall v :: v in stats ==> v.key.staff != "2" by {
      if left.None? {
        forall v | v in stats ensures v.key.staff != "2" {
          var i :| 0 <= i < |stats| && stats[i] == v;
        }
      }
    }
  }

  /** The selection reports neither the chord warning nor the tempo fallback. */
  lemma SelectionClean(stats: seq<VoiceStats>)
    ensures var r := SelectVoices(stats);
      ChordNotesExcluded !in r.warnings && TempoFallback !in r.warnings
  {
    var r := SelectVoices(stats);
    ReportsClean(ChooseVoiceInStaff(stats, "1").None?, r.right, SeveralVoices(stats, "1"),
                 r.left, SeveralVoices(stats, "2"));
  }

  /** `ChooseVoiceInStaff` finds nothing exactly when the staff has no entry. */
  lemma StaffEmpty(stats: seq<VoiceStats>, staff: string)
    ensures ChooseVoiceInStaff(stats, staff).None? <==> forall v :: v in stats ==> v.key.staff != staff
  {
    if ChooseVoiceInStaff(stats, staff).None? {
      forall v | v in stats ensures v.key.staff != staff {
        var i :| 0 <= i < |stats| && stats[i] == v;
      }
    }
  }

  /** The fallback warning goes out exactly when there are voices but none on staff 1. */
  lemma SelectionFallback(stats: seq<VoiceStats>)
    ensures (exists k :: RightFallback(k) in SelectVoices(stats).warnings)
        <==> |stats| > 0 && forall v :: v in stats ==> v.key.staff != "1"
  {
    var r := SelectVoices(stats);
    StaffEmpty(stats, "1");
    ReportsFallback(ChooseVoiceInStaff(stats, "1").None?, r.right, SeveralVoices(stats, "1"),
                    r.left, SeveralVoices(stats, "2"));
  }

  /** A multi-voice warning goes out for a hand exactly when it was chosen and its staff has several voices. */
  lemma SelectionMultiVoice(stats: seq<VoiceStats>)
    ensures var r := SelectVoices(stats);
      && ((exists v :: RightMultiVoice(v) in r.warnings) <==> r.right.Some? && SeveralVoices(stats, "1"))
      && ((exists v :: LeftMultiVoice(v) in r.warnings) <==> r.left.Some? && SeveralVoices(stats, "2"))
  {
    var r := SelectVoices(stats);
    ReportsMultiVoice(ChooseVoiceInStaff(stats, "1").None?, r.right, SeveralVoices(stats, "1"),
                      r.left, SeveralVoices(stats, "2"));
  }

  /**
   * The missing-left warning goes out exactly when no left hand was chosen. There are one to
   * four warnings in all: the fallback and the staff-1 multi-voice warning exclude each other.
   */
  lemma SelectionLeftMissing(stats: seq<VoiceStats>)
    ensures var r := SelectVoices(stats);
      (LeftMissing in r.warnings <==> r.left.None?) && 1 <= |r.warnings| <= 4
  {
    var r := SelectVoices(stats);
    assert ChooseVoiceInStaff(stats, "1").None? ==> !SeveralVoices(stats, "1");
    ReportsLeftMissing(ChooseVoiceInStaff(stats, "1").None?, r.right, SeveralVoices(stats, "1"),
                       r.left, SeveralVoices(stats, "2"));
  }

  // The same facts about the two hands' reports, for any choice of voices.

  lemma ReportsClean(fallback: bool, right: Option<VoiceKey>, several1: bool, left: Option<VoiceKey>, several2: bool)
    ensures var w := RightReport(fallback, right, several1) + LeftReport(left, several2);
      ChordNotesExcluded !in w && TempoFallback !in w
  {
    var rw, lw := RightReport(fallback, right, several1), LeftReport(left, several2);
    assert ChordNotesExcluded !in rw && TempoFallback !in rw;
    assert ChordNotesExcluded !in lw && TempoFallback !in lw;
  }

  lemma ReportsFallback(fallback: bool, right: Option<VoiceKey>, several1: bool, left: Option<VoiceKey>, several2: bool)
    ensures var w := RightReport(fallback, right, several1) + LeftReport(left, several2);
      (exists k :: RightFallback(k) in w) <==> fallback && right.Some?
  {
    var rw, lw := RightReport(fallback, right, several1), LeftReport(left, several2);
    assert forall k :: RightFallback(k) in rw + lw <==> RightFallback(k) in rw;
    if fallback && right.Some? {
      assert RightFallback(right.value) in rw;
    }
  }

  lemma ReportsMultiVoice(fallback: bool, right: Option<VoiceKey>, several1: bool, left: Option<VoiceKey>, several2: bool)
    ensures var w := RightReport(fallback, right, several1) + LeftReport(left, several2);
      && ((exists v :: RightMultiVoice(v) in w) <==> right.Some? && several1)
      && ((exists v :: LeftMultiVoice(v) in w) <==> left.Some? && several2)
  {
    var rw, lw := RightReport(fallback, right, several1), LeftReport(left, several2);
    assert forall v :: RightMultiVoice(v) in rw + lw <==> RightMultiVoice(v) in rw;
    assert forall v :: LeftMultiVoice(v) in rw + lw <==> LeftMultiVoice(v) in lw;
    if right.Some? && several1 {
      assert RightMultiVoice(right.value.voice) in rw;
    }
    if left.Some? && several2 {
      assert LeftMultiVoice(left.value.voice) in lw;
    }
  }

  lemma ReportsLeftMissing(fallback: bool, right: Option<VoiceKey>, several1: bool, left: Option<VoiceKey>, several2: bool)
    ensures var w := RightReport(fallback, right, several1) + LeftReport(left, several2);
      && (LeftMissing in w <==> left.None?) && 1 <= |w| <= 5
      && (!(fallback && several1) ==> |w| <= 4)
  {
    var rw, lw := RightReport(fallback, right, several1), LeftReport(left, several2);
    assert LeftMissing in rw + lw <==> LeftMissing in lw;
  }

  // ---------------------------------------------------------------------------------------
  // The hands' timelines

  /** The events of one voice, in timeline order. */
  function OfVoice(t: seq<TimelineNote>, key: VoiceKey): (r: seq<TimelineNote>)
    ensures forall e :: e in r <==> e in t && e.Key() == key
    ensures |r| <= |t|
  {
    if t == [] then []
    else
      var rest := OfVoice(t[1..], key);
      assert forall e :: e in t <==> e == t[0] || e in t[1..];
      if t[0].Key() == key then [t[0]] + rest else rest
  }

  /** `(event.start_beat, event.source_measure, event.midi or -1)`: a MIDI number of 0 also sorts as -1. */
  function TimelineOrder(e: TimelineNote): (k: SortKey)
    ensures k.beat == e.startBeat && |k.ranks| == 2 && k.ranks[0] == e.sourceMeasure
    ensures e.midi.Some? && e.midi.value != 0 ==> k.ranks[1] == e.midi.value
    ensures e.midi.None? || e.midi == Some(0) ==> k.ranks[1] == -1
  {
    SortKey(e.startBeat, [e.sourceMeasure, if e.midi.Some? && e.midi.value != 0 then e.midi.value else -1])
  }

  /** One hand's timeline: the chosen voice's events, sorted; nothing when no voice was chosen. */
  function HandTimeline(t: seq<TimelineNote>, voice: Option<VoiceKey>): seq<TimelineNote>
  {
    if voice.None? then [] else SortBy(OfVoice(t, voice.value), TimelineOrder)
  }

  /** A hand's timeline is a sorted permutation of its voice's events, and empty without a voice. */
  lemma HandTimelineSpec(t: seq<TimelineNote>, voice: Option<VoiceKey>)
    ensures var r := HandTimeline(t, voice);
      && (voice.None? ==> r == [])
      && (voice.Some? ==> multiset(r) == multiset(OfVoice(t, voice.value)))
      && (forall e :: e in r <==> voice.Some? && e in t && e.Key() == voice.value)
      && SortedBy(r, TimelineOrder)
  {
    if voice.Some? {
      SameElements(HandTimeline(t, voice), OfVoice(t, voice.value));
    }
  }

  // ---------------------------------------------------------------------------------------
  // The response

  /** The three calls of `_build_render_notes`, threading the chord-warning flag and the warnings. */
  datatype Rendering = Rendering(melody: seq<RenderNote>, right: seq<RenderNote>, left: seq<RenderNote>,
                                 warnings: seq<Warning>)

  /** The melody (chords dropped) and the right-hand playback from `rightT`, the left-hand playback from `leftT`. */
  function RenderHands(rightT: seq<TimelineNote>, leftT: seq<TimelineNote>, warnings: seq<Warning>): Rendering
  {
    var melody := BuildRender(rightT, false, false, warnings);
    var rightPlay := BuildRender(rightT, true, melody.sent, melody.warnings);
    var leftPlay := BuildRender(leftT, true, rightPlay.sent, rightPlay.warnings);
    Rendering(melody.notes, rightPlay.notes, leftPlay.notes, leftPlay.warnings)
  }

  /** One hand's events, or none when that hand has no voice. */
  function HandEvents(notes: seq<RenderNote>, hand: Hand, voice: Option<VoiceKey>): seq<PlaybackEvent>
  {
    if voice.None? then [] else ToPlaybackEvents(RecognizeAll(MergeTies(notes)), hand, voice.value.staff, voice.value.voice)
  }

  /** Tie merging, classification, grouping and the final sort, then the tempo default. */
  function Finish(st: ParseState, sel: Selection, rs: Rendering, inputType: string): (r: Response)
    ensures r.engine == "audiveris" && r.inputType == inputType && r.timeSignature == st.timeSignature
    ensures st.tempo.Some? ==> r.tempo == st.tempo.value && r.warnings == rs.warnings
    ensures st.tempo.None? ==> r.tempo == DefaultTempo && r.warnings == rs.warnings + [TempoFallback]
    ensures |r.notes| <= |rs.melody|
  {
    MergeTiesShorter(rs.melody);
    var notes := RecognizeAll(MergeTies(rs.melody));
    var events := HandEvents(rs.right, Right, sel.right) + HandEvents(rs.left, Left, sel.left);
    var tempo := if st.tempo.Some? then st.tempo.value else DefaultTempo;
    var warnings := rs.warnings + (if st.tempo.None? then [TempoFallback] else []);
    Response(tempo, st.timeSignature, notes, SortEvents(events), "audiveris", inputType, warnings)
  }

  /** Everything after the measure loop, from its final state. */
  function Assemble(st: ParseState, inputType: string): (r: Response)
    ensures r.engine == "audiveris" && r.inputType == inputType && r.timeSignature == st.timeSignature
    ensures |r.notes| <= |st.timeline|
  {
    var sel := SelectVoices(st.stats);
    var rs := RenderHands(HandTimeline(st.timeline, sel.right), HandTimeline(st.timeline, sel.left), sel.warnings);
    Finish(st, sel, rs, inputType)
  }

  /** `parse_musicxml` on an already decoded document: the first part, or `NoPart`. */
  function ParseScore(doc: ScoreDocument, inputType: string): (r: Result<Response, ParseError>)
    ensures r.Err? <==> doc.parts == []
    ensures r.Ok? ==> r.value.engine == "audiveris" && r.value.inputType == inputType
  {
    if doc.parts == [] then Err(NoPart)
    else Ok(Assemble(BuildTimeline(doc.parts[0]), inputType))
  }

  // ---------------------------------------------------------------------------------------
  // Properties of the response

  /** The three render calls add the chord warning at most once, exactly when the melody's timeline has a chord. */
  lemma RenderWarnings(rightT: seq<TimelineNote>, leftT: seq<TimelineNote>, warnings: seq<Warning>)
    ensures RenderHands(rightT, leftT, warnings).warnings
         == warnings + (if HasPitchedChord(rightT) then [ChordNotesExcluded] else [])
  {
    BuildRenderSpec(rightT, false, false, warnings);
    var melody := BuildRender(rightT, false, false, warnings);
    BuildRenderSpec(rightT, true, melody.sent, melody.warnings);
    var rightPlay := BuildRender(rightT, true, melody.sent, melody.warnings);
    BuildRenderSpec(leftT, true, rightPlay.sent, rightPlay.warnings);
  }

  /** The tempo check: the score's tempo, or the default with the fallback warning appended. */
  lemma FinishTempo(st: ParseState, sel: Selection, rs: Rendering, inputType: string)
    ensures var r := Finish(st, sel, rs, inputType);
      && r.warnings == rs.warnings + (if st.tempo.None? then [TempoFallback] else [])
      && r.tempo == (if st.tempo.Some? then st.tempo.value else DefaultTempo)
  {
  }

  /** The response's warnings: the selection's, the chord warning if any, and the tempo fallback if any. */
  lemma ResponseWarningList(st: ParseState, inputType: string)
    ensures var sel := SelectVoices(st.stats);
      var rightT := HandTimeline(st.timeline, sel.right);
      && Assemble(st, inputType).warnings
           == sel.warnings + (if HasPitchedChord(rightT) then [ChordNotesExcluded] else [])
              + (if st.tempo.None? then [TempoFallback] else [])
      && Assemble(st, inputType).tempo == (if st.tempo.Some? then st.tempo.value else DefaultTempo)
  {
    var sel := SelectVoices(st.stats);
    var rightT := HandTimeline(st.timeline, sel.right);
    var leftT := HandTimeline(st.timeline, sel.left);
    var rs := RenderHands(rightT, leftT, sel.warnings);
    assert Assemble(st, inputType) == Finish(st, sel, rs, inputType);
    FinishTempo(st, sel, rs, inputType);
    RenderWarnings(rightT, leftT, sel.warnings);
  }

  /** A warning list with the chord warning inserted once in the middle of lists without it. */
  lemma ChordInserted(ws: seq<Warning>, hasChord: bool, tail: seq<Warning>)
    requires ChordNotesExcluded !in ws && ChordNotesExcluded !in tail
    ensures var all := ws + (if hasChord then [ChordNotesExcluded] else []) + tail;
      multiset(all)[ChordNotesExcluded] <= 1 && (ChordNotesExcluded in all <==> hasChord)
  {
    AppendFacts(ws, if hasChord then [ChordNotesExcluded] else [], tail);
  }

  /** The chord warning is reported at most once. */
  lemma ResponseChordWarningOnce(st: ParseState, inputType: string)
    ensures multiset(Assemble(st, inputType).warnings)[ChordNotesExcluded] <= 1
  {
    var sel := SelectVoices(st.stats);
    var c := HasPitchedChord(HandTimeline(st.timeline, sel.right));
    ResponseWarningList(st, inputType);
    SelectionClean(st.stats);
    ChordInserted(sel.warnings, c, if st.tempo.None? then [TempoFallback] else []);
  }

  /** The chord warning is reported exactly when the right hand's timeline has a pitched chord member. */
  lemma ResponseChordWarning(st: ParseState, inputType: string)
    ensures ChordNotesExcluded in Assemble(st, inputType).warnings
        <==> HasPitchedChord(HandTimeline(st.timeline, SelectVoices(st.stats).right))
  {
    var sel := SelectVoices(st.stats);
    var c := HasPitchedChord(HandTimeline(st.timeline, sel.right));
    ResponseWarningList(st, inputType);
    SelectionClean(st.stats);
    ChordInserted(sel.warnings, c, if st.tempo.None? then [TempoFallback] else []);
  }

  /** The tempo fallback is reported exactly when the score has no tempo. */
  lemma ResponseTempoFallback(st: ParseState, inputType: string)
    ensures TempoFallback in Assemble(st, inputType).warnings <==> st.tempo.None?
  {
    var sel := SelectVoices(st.stats);
    var rightT := HandTimeline(st.timeline, sel.right);
    ResponseWarningList(st, inputType);
    SelectionClean(st.stats);
    var chord := if HasPitchedChord(rightT) then [ChordNotesExcluded] else [];
    var tail := if st.tempo.None? then [TempoFallback] else [];
    AppendFacts(sel.warnings, chord, tail);
  }

  /** Without a tempo in the score the tempo is 120 and the fallback warning comes last; with one it is kept. */
  lemma ResponseTempo(st: ParseState, inputType: string)
    ensures var r := Assemble(st, inputType);
      && (st.tempo.None? ==>
            r.tempo == DefaultTempo && |r.warnings| > 0 && r.warnings[|r.warnings| - 1] == TempoFallback)
      && (st.tempo.Some? ==> r.tempo == st.tempo.value)
  {
    var sel := SelectVoices(st.stats);
    var rightT := HandTimeline(st.timeline, sel.right);
    ResponseWarningList(st, inputType);
    var chord := if HasPitchedChord(rightT) then [ChordNotesExcluded] else [];
    var tail := if st.tempo.None? then [TempoFallback] else [];
    AppendFacts(sel.warnings, chord, tail);
  }

  /** The selection's warnings open the response's warnings. */
  lemma ResponseSelectionFirst(st: ParseState, inputType: string)
    ensures SelectVoices(st.stats).warnings <= Assemble(st, inputType).warnings
  {
    var sel := SelectVoices(st.stats);
    var rightT := HandTimeline(st.timeline, sel.right);
    ResponseWarningList(st, inputType);
    var chord := if HasPitchedChord(rightT) then [ChordNotesExcluded] else [];
    var tail := if st.tempo.None? then [TempoFallback] else [];
    AppendFacts(sel.warnings, chord, tail);
  }

  /** Every event of one hand carries that hand and its voice's staff and voice. */
  lemma HandEventsLabelled(notes: seq<RenderNote>, hand: Hand, voice: Option<VoiceKey>)
    ensures forall e :: e in HandEvents(notes, hand, voice) ==>
      voice.Some? && e.hand == hand && e.staff == voice.value.staff && e.voice == voice.value.voice
  {
    if voice.Some? {
      EventsLabelled(RecognizeAll(MergeTies(notes)), hand, voice.value.staff, voice.value.voice);
    }
  }

  /** The response's events are those of the two hands, sorted. */
  lemma ResponseEventList(st: ParseState, inputType: string)
    ensures var sel := SelectVoices(st.stats);
      var rs := RenderHands(HandTimeline(st.timeline, sel.right), HandTimeline(st.timeline, sel.left), sel.warnings);
      Assemble(st, inputType).playbackEvents
        == SortEvents(HandEvents(rs.right, Right, sel.right) + HandEvents(rs.left, Left, sel.left))
  {
    var sel := SelectVoices(st.stats);
    var rs := RenderHands(HandTimeline(st.timeline, sel.right), HandTimeline(st.timeline, sel.left), sel.warnings);
    assert Assemble(st, inputType) == Finish(st, sel, rs, inputType);
  }

  /** Any arrangement of the two hands' events keeps each event's hand, staff and voice. */
  lemma HandsLabelled(es: seq<PlaybackEvent>, rightNotes: seq<RenderNote>, leftNotes: seq<RenderNote>, sel: Selection)
    requires multiset(es) == multiset(HandEvents(rightNotes, Right, sel.right) + HandEvents(leftNotes, Left, sel.left))
    ensures forall e :: e in es && e.hand == Right ==>
      sel.right.Some? && e.staff == sel.right.value.staff && e.voice == sel.right.value.voice
    ensures forall e :: e in es && e.hand == Left ==>
      sel.left.Some? && e.staff == sel.left.value.staff && e.voice == sel.left.value.voice
  {
    var re := HandEvents(rightNotes, Right, sel.right);
    var le := HandEvents(leftNotes, Left, sel.left);
    SameElements(es, re + le);
    HandEventsLabelled(rightNotes, Right, sel.right);
    HandEventsLabelled(leftNotes, Left, sel.left);
    assert forall e :: e in es ==> e in re || e in le;
  }

  /** Right-hand events carry the right voice's staff and voice. */
  lemma ResponseRightLabelled(st: ParseState, inputType: string)
    ensures var sel := SelectVoices(st.stats);
      forall e :: e in Assemble(st, inputType).playbackEvents && e.hand == Right ==>
        sel.right.Some? && e.staff == sel.right.value.staff && e.voice == sel.right.value.voice
  {
    var sel := SelectVoices(st.stats);
    var rs := RenderHands(HandTimeline(st.timeline, sel.right), HandTimeline(st.timeline, sel.left), sel.warnings);
    ResponseEventList(st, inputType);
    HandsLabelled(Assemble(st, inputType).playbackEvents, rs.right, rs.left, sel);
  }

  /** Left-hand events carry the left voice's staff, which is always staff 2, and its voice. */
  lemma ResponseLeftLabelled(st: ParseState, inputType: string)
    ensures var sel := SelectVoices(st.stats);
      forall e :: e in Assemble(st, inputType).playbackEvents && e.hand == Left ==>
        sel.left.Some? && e.staff == "2" && e.voice == sel.left.value.voice
  {
    var sel := SelectVoices(st.stats);
    var rs := RenderHands(HandTimeline(st.timeline, sel.right), HandTimeline(st.timeline, sel.left), sel.warnings);
    ResponseEventList(st, inputType);
    HandsLabelled(Assemble(st, inputType).playbackEvents, rs.right, rs.left, sel);
  }

  /** The response's events are ordered by onset, the right hand's before the left's at the same onset. */
  lemma ResponseEventsOrdered(st: ParseState, inputType: string)
    ensures var es := Assemble(st, inputType).playbackEvents;
      && (forall i, j :: 0 <= i < j < |es| ==> es[i].startBeat <= es[j].startBeat)
      && (forall i, j :: (0 <= i < j < |es| && es[i].hand == Left && es[i].startBeat == es[j].startBeat) ==>
            es[j].hand == Left)
  {
    ResponseEventList(st, inputType);
  }

  /** A score without pitched notes keeps neither hand: no notes, no events, and the left hand reported missing. */
  lemma SilentScore(st: ParseState, inputType: string)
    requires st.stats == []
    ensures var r := Assemble(st, inputType);
      r.notes == [] && r.playbackEvents == [] && LeftMissing in r.warnings
  {
    var sel := SelectVoices(st.stats);
    SelectionHands(st.stats);
    SelectionLeftMissing(st.stats);
    ResponseSelectionFirst(st, inputType);
    ResponseEventList(st, inputType);
    var rs := RenderHands([], [], sel.warnings);
    assert rs.melody == [];
    assert MergeTies([]) == [];
    assert Assemble(st, inputType) == Finish(st, sel, rs, inputType);
  }

  // ---------------------------------------------------------------------------------------
  // The pipeline as the program runs it

  /** The three render loops. */
  method RenderHandsLoops(rightT: seq<TimelineNote>, leftT: seq<TimelineNote>, warnings: seq<Warning>)
    returns (rs: Rendering)
    ensures rs == RenderHands(rightT, leftT, warnings)
  {
    var melody, sent, warnings1 := BuildRenderNotes(rightT, false, false, warnings);
    var rightPlay, sent2, warnings2 := BuildRenderNotes(rightT, true, sent, warnings1);
    var leftPlay, _, warnings3 := BuildRenderNotes(leftT, true, sent2, warnings2);
    rs := Rendering(melody, rightPlay, leftPlay, warnings3);
  }

  /** One hand's tie merging and grouping loops. */
  method HandEventsLoops(notes: seq<RenderNote>, hand: Hand, voice: Option<VoiceKey>)
    returns (events: seq<PlaybackEvent>)
    ensures events == HandEvents(notes, hand, voice)
  {
    events := [];
    if voice.Some? {
      var merged := MergeTieChains(notes);
      events := GroupPlaybackEvents(RecognizeAll(merged), hand, voice.value.staff, voice.value.voice);
    }
  }

  /** Both hands' playback events, merged and sorted as the response carries them. */
  method PlaybackLoops(sel: Selection, rs: Rendering) returns (events: seq<PlaybackEvent>)
    ensures events == SortEvents(HandEvents(rs.right, Right, sel.right) + HandEvents(rs.left, Left, sel.left))
  {
    var rightEvents := HandEventsLoops(rs.right, Right, sel.right);
    var leftEvents := HandEventsLoops(rs.left, Left, sel.left);
    events := SortEvents(rightEvents + leftEvents);
  }

  /** The response's `notes`: the melody's tie chains merged, then recognized. */
  method MelodyLoops(melody: seq<RenderNote>) returns (notes: seq<RecognizedNote>)
    ensures notes == RecognizeAll(MergeTies(melody))
  {
    var merged := MergeTieChains(melody);
    notes := RecognizeAll(merged);
  }

  /** `if tempo is None`: the default tempo, with the fallback warning appended. */
  method TempoDefault(found: Option<int>, warnings: seq<Warning>) returns (tempo: int, out: seq<Warning>)
    ensures tempo == (if found.Some? then found.value else DefaultTempo)
    ensures out == warnings + (if found.None? then [TempoFallback] else [])
  {
    tempo, out := DefaultTempo, warnings;
    if found.Some? {
      tempo := found.value;
    } else {
      out := out + [TempoFallback];
    }
  }

  /** Everything after the measure loop, by the loop implementations of each stage. */
  method AssembleLoops(st: ParseState, inputType: string) returns (resp: Response)
    ensures resp == Assemble(st, inputType)
  {
    var sel := SelectVoices(st.stats);
    var rs := RenderHandsLoops(HandTimeline(st.timeline, sel.right), HandTimeline(st.timeline, sel.left),
                               sel.warnings);
    var notes := MelodyLoops(rs.melody);
    var events := PlaybackLoops(sel, rs);
    var tempo, warnings := TempoDefault(st.tempo, rs.warnings);
    resp := Response(tempo, st.timeSignature, notes, events, "audiveris", inputType, warnings);
    assert resp == Finish(st, sel, rs, inputType);
  }

  /** `parse_musicxml`: the first part's measure loop, then the stages after it. */
  method ParseMusicXml(doc: ScoreDocument, inputType: string) returns (r: Result<Response, ParseError>)
    ensures r == ParseScore(doc, inputType)
  {
    if |doc.parts| == 0 {
      return Err(NoPart);
    }
    var st := ScanPart(doc.parts[0]);
    var resp := AssembleLoops(st, inputType);
    r := Ok(resp);
  }

  // ---------------------------------------------------------------------------------------
  // The backup/forward example, end to end

  /** With staff 1 voice 1 and staff 2 voice 2 recorded, the right hand is staff 1 voice 1. */
  lemma BackupForwardSelection()
    ensures SelectVoices([VoiceStats(VoiceKey("1", "1"), 2, 146), VoiceStats(VoiceKey("2", "2"), 1, 48)]).right
         == Some(VoiceKey("1", "1"))
  {
    var stats := [VoiceStats(VoiceKey("1", "1"), 2, 146), VoiceStats(VoiceKey("2", "2"), 1, 48)];
    var r := ChooseVoiceInStaff(stats, "1");
    assert stats[0].key.staff == "1";
    assert r.Some?;
    assert forall v :: v in stats ==> v == stats[0] || v == stats[1];
  }

  /** The right hand's timeline of the example: C5 and D5, already in order. */
  lemma BackupForwardHand()
    ensures HandTimeline([Placed(0.0, 1.0, "1", "1", C, 5), Placed(0.0, 2.0, "2", "2", C, 3),
                          Placed(3.0, 1.0, "1", "1", D, 5)], Some(VoiceKey("1", "1")))
         == [Placed(0.0, 1.0, "1", "1", C, 5), Placed(3.0, 1.0, "1", "1", D, 5)]
  {
    var a, b, c := Placed(0.0, 1.0, "1", "1", C, 5), Placed(0.0, 2.0, "2", "2", C, 3), Placed(3.0, 1.0, "1", "1", D, 5);
    var k := VoiceKey("1", "1");
    assert [a, b, c][1..] == [b, c] && [b, c][1..] == [c] && [c][1..] == [];
    assert OfVoice([c], k) == [c];
    assert OfVoice([b, c], k) == [c];
    assert OfVoice([a, b, c], k) == [a, c];
    SortTwo(a, c, TimelineOrder);
  }

  /**
   * Two untied single notes, the first starting earlier, come out of the melody path (render
   * without chords, merge ties, classify) as two notes with their pitches and onsets.
   */
  lemma TwoNoteMelody(a: TimelineNote, b: TimelineNote, warnings: seq<Warning>)
    requires Renders(a, false) && Renders(b, false)
    requires !a.tieStart && !a.tieStop && !b.tieStart && !b.tieStop
    requires a.startBeat < b.startBeat
    ensures var notes := RecognizeAll(MergeTies(BuildRender([a, b], false, false, warnings).notes));
      && |notes| == 2
      && Some(notes[0].pitch) == a.pitch && notes[0].startBeat == a.startBeat
      && Some(notes[1].pitch) == b.pitch && notes[1].startBeat == b.startBeat
  {
    BuildRenderSpec([a, b], false, false, warnings);
    assert [a, b][1..] == [b] && [b][1..] == [];
    assert Rendered([a, b], false) == [a, b];
    var melody := BuildRender([a, b], false, false, warnings).notes;
    assert Corresponds(melody[0], a) && Corresponds(melody[1], b);
    assert melody == [melody[0], melody[1]];
    UntiedPassThrough(melody);
    SortTwo(melody[0], melody[1], MergeKey);
  }

  /**
   * The response to C5, back one beat, C3 in the second staff, forward one beat, D5: its
   * notes are C5 at beat 0 and D5 at beat 3.
   */
  lemma BackupForwardResponse(inputType: string)
    ensures var r := Assemble(BuildTimeline(BackupForwardPart), inputType);
      && |r.notes| == 2
      && r.notes[0].pitch == "C5" && r.notes[0].startBeat == 0.0
      && r.notes[1].pitch == "D5" && r.notes[1].startBeat == 3.0
  {
    BackupForwardState();
    BackupForwardSelection();
    BackupForwardHand();
    var st := BuildTimeline(BackupForwardPart);
    var sel := SelectVoices(st.stats);
    var a, c := Placed(0.0, 1.0, "1", "1", C, 5), Placed(3.0, 1.0, "1", "1", D, 5);
    assert HandTimeline(st.timeline, sel.right) == [a, c];
    TwoNoteMelody(a, c, sel.warnings);
    BackupForwardExample();
    assert a.pitch == Some("C5") && c.pitch == Some("D5");
    assert Assemble(st, inputType).notes == RecognizeAll(MergeTies(BuildRender([a, c], false, false, sel.warnings).notes));
  }
}
