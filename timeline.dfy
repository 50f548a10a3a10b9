/**
 * The timeline builder of `musicxml_parser.py`: `_parse_note_node` and the measure/cursor
 * loop of `parse_musicxml`. `ParseNote`, `StepChild`, `RunChildren` and `RunMeasures` are the
 * specification; `ScanPart` is the loop itself, proved to compute `BuildTimeline`.
 */
module Timeline {
  import opened Wrappers
  import opened Document
  import opened Pitch
  import opened Voices
  import opened Text

  /** `TimelineNote`: one note or rest placed on the beat axis. */
  datatype TimelineNote = TimelineNote(
    startBeat: real,
    durationBeat: real,
    sourceMeasure: int,
    staff: string,
    voice: string,
    isRest: bool,
    isChord: bool,
    pitch: Option<string>,
    midi: Option<int>,
    tieStart: bool,
    tieStop: bool,
    slurStarts: nat,
    slurStops: nat,
    staccato: bool)
  {
    function Key(): VoiceKey
    {
      VoiceKey(staff, voice)
    }

    /** The notes `voice_stats` counts: not a rest, with a MIDI number. */
    predicate Pitched()
    {
      !isRest && midi.Some?
    }
  }

  /** `_text(node, "1") or "1"`: a staff or voice token, "1" when missing or empty. */
  function Token(text: Option<string>): string
  {
    if text.None? || text.value == "" then "1" else text.value
  }

  /** `duration / divisions if divisions else 0.0`. */
  function Beats(duration: real, divisions: int): real
  {
    if divisions != 0 then duration / divisions as real else 0.0
  }

  function CountSlurs(ns: seq<NotationChild>, slurType: string): nat
  {
    if ns == [] then 0
    else (if ns[0].SlurMark? && ns[0].slurType == slurType then 1 else 0) + CountSlurs(ns[1..], slurType)
  }

  predicate HasStaccato(ns: seq<NotationChild>)
  {
    exists i :: 0 <= i < |ns| && ns[i].ArticulationsMark? && "staccato" in ns[i].marks
  }

  /** What `_parse_note_node` returns, with the anchor map it leaves behind. */
  datatype NoteOutcome = NoteOutcome(parsed: Option<TimelineNote>, nextCursor: real, anchors: map<VoiceKey, real>)

  /** `_parse_note_node`: places one `<note>` at the cursor or at its chord anchor. */
  function ParseNote(n: NoteNode, cursor: real, divisions: int, measure: int,
                     anchors: map<VoiceKey, real>): (o: NoteOutcome)
    ensures o.nextCursor >= cursor
    ensures n.grace ==> o == NoteOutcome(None, cursor, anchors)
    ensures o.parsed.Some? ==> o.parsed.value.durationBeat > 0.0 && o.parsed.value.sourceMeasure == measure
  {
    if n.grace then NoteOutcome(None, cursor, anchors)
    else
      var duration := Beats(n.duration, divisions);
      if duration <= 0.0 then NoteOutcome(None, cursor, anchors)
      else
        var key := VoiceKey(Token(n.staff), Token(n.voice));
        var start := if n.chord && key in anchors then anchors[key] else cursor;
        var next := if n.chord then cursor else cursor + duration;
        var anchors' := if n.chord then anchors else anchors[key := cursor];
        var notations := if n.notations.Some? then n.notations.value else [];
        if !n.rest && n.pitch.None? then NoteOutcome(None, next, anchors')
        else
          var step := if !n.rest && n.pitch.value.step.Some? then n.pitch.value.step.value else C;
          var alter := if !n.rest && n.pitch.value.alter.Some? then n.pitch.value.alter.value else 0;
          var octave := if !n.rest && n.pitch.value.octave.Some? then n.pitch.value.octave.value else 4;
          var note := TimelineNote(
            start, duration, measure, key.staff, key.voice, n.rest, n.chord,
            if n.rest then None else Some(PitchName(step, alter, octave)),
            if n.rest then None else Some(MidiNumber(step, alter, octave)),
            "start" in n.tieTypes, "stop" in n.tieTypes,
            CountSlurs(notations, "start"), CountSlurs(notations, "stop"),
            HasStaccato(notations));
          NoteOutcome(Some(note), next, anchors')
  }

  /**
   * The two placement rules, and the notes that leave no trace.
   * A grace note, or one lasting no more than 0 beats, changes nothing. Otherwise a chord
   * member starts at its voice's anchor (the cursor when there is none) and keeps the cursor;
   * any other note starts at the cursor, becomes its voice's anchor and moves the cursor on.
   */
  lemma NotePlacement(n: NoteNode, cursor: real, divisions: int, measure: int,
                      anchors: map<VoiceKey, real>)
    ensures var o := ParseNote(n, cursor, divisions, measure, anchors);
      var duration := Beats(n.duration, divisions);
      var key := VoiceKey(Token(n.staff), Token(n.voice));
      && ((n.grace || duration <= 0.0) ==> o == NoteOutcome(None, cursor, anchors))
      && (!n.grace && duration > 0.0 && !n.chord ==>
            && o.nextCursor == cursor + duration
            && o.anchors == anchors[key := cursor]
            && (o.parsed.Some? ==> o.parsed.value.startBeat == cursor))
      && (!n.grace && duration > 0.0 && n.chord ==>
            && o.nextCursor == cursor
            && o.anchors == anchors
            && (o.parsed.Some? ==> o.parsed.value.startBeat == (if key in anchors then anchors[key] else cursor)))
      && (o.parsed.Some? ==>
            && o.parsed.value.durationBeat == duration > 0.0
            && o.parsed.value.Key() == key
            && o.parsed.value.isRest == n.rest
            && o.parsed.value.isChord == n.chord
            && (o.parsed.value.midi.None? <==> n.rest)
            && (o.parsed.value.pitch.None? <==> n.rest))
      && (o.parsed.None? ==> n.grace || duration <= 0.0 || (!n.rest && n.pitch.None?))
  {
  }

  /**
   * What a placed note carries: the name and MIDI number of its pitch, with step C, alteration 0
   * and octave 4 standing in for missing children, and its tie, slur and staccato marks.
   */
  lemma NoteMarks(n: NoteNode, cursor: real, divisions: int, measure: int, anchors: map<VoiceKey, real>)
    requires ParseNote(n, cursor, divisions, measure, anchors).parsed.Some?
    ensures var p := ParseNote(n, cursor, divisions, measure, anchors).parsed.value;
      var notations := if n.notations.Some? then n.notations.value else [];
      && (p.tieStart <==> "start" in n.tieTypes) && (p.tieStop <==> "stop" in n.tieTypes)
      && p.slurStarts == CountSlurs(notations, "start") && p.slurStops == CountSlurs(notations, "stop")
      && (p.staccato <==> exists i :: 0 <= i < |notations| && notations[i].ArticulationsMark?
                                       && "staccato" in notations[i].marks)
      && (!n.rest ==>
            && n.pitch.Some?
            && var pn := n.pitch.value;
               var step := if pn.step.Some? then pn.step.value else C;
               var alter := if pn.alter.Some? then pn.alter.value else 0;
               var octave := if pn.octave.Some? then pn.octave.value else 4;
               p.midi == Some(MidiNumber(step, alter, octave)) && p.pitch == Some(PitchName(step, alter, octave)))
  {
  }

  /** The local state of `parse_musicxml` while it walks the measures. */
  datatype ParseState = ParseState(
    cursor: real,
    measureCursor: real,
    measureMax: real,
    divisions: int,
    tempo: Option<int>,
    timeSignature: string,
    timeline: seq<TimelineNote>,
    stats: seq<VoiceStats>,
    anchors: map<VoiceKey, real>)

  const Initial := ParseState(0.0, 0.0, 0.0, 1, None, "4/4", [], [], map[])

  /** Python's `int(x)` on a float: truncation toward zero. */
  function Truncate(x: real): int
  {
    if x >= 0.0 then x.Floor else -((-x).Floor)
  }

  /** `f"{beats}/{beat_type}"`, each text defaulting to "4". */
  function TimeSignatureText(t: TimeNode): string
  {
    (if t.beats.Some? then t.beats.value else "4") + "/" + (if t.beatType.Some? then t.beatType.value else "4")
  }

  /** One iteration of the loop over a measure's children. */
  function StepChild(s: ParseState, c: MeasureChild, measure: int): (r: ParseState)
    ensures r.cursor == s.cursor && r.measureMax >= s.measureMax
    ensures s.divisions >= 1 ==> r.divisions >= 1
    ensures |s.timeline| <= |r.timeline| <= |s.timeline| + 1 && r.timeline[..|s.timeline|] == s.timeline
  {
    match c
    case Attributes(d, t) =>
      var s1 := if d.Some? then s.(divisions := MaxInt(1, d.value)) else s;
      if t.Some? then s1.(timeSignature := TimeSignatureText(t.value)) else s1
    case Direction(perMinute, soundTempo) =>
      if s.tempo.Some? then s
      else if perMinute.Some? then s.(tempo := Some(Truncate(perMinute.value)))
      else if soundTempo.Some? then s.(tempo := Some(Truncate(soundTempo.value)))
      else s
    case Backup(d) =>
      s.(measureCursor := s.measureCursor - Beats(d, s.divisions))
    case Forward(d) =>
      var mc := s.measureCursor + Beats(d, s.divisions);
      s.(measureCursor := mc, measureMax := Max(s.measureMax, mc))
    case NoteChild(n) =>
      var o := ParseNote(n, s.measureCursor, s.divisions, measure, s.anchors);
      if o.parsed.None? then
        s.(measureCursor := o.nextCursor, measureMax := Max(s.measureMax, o.nextCursor), anchors := o.anchors)
      else
        var p := o.parsed.value;
        s.(measureCursor := o.nextCursor,
           measureMax := Max(Max(s.measureMax, p.startBeat + p.durationBeat), o.nextCursor),
           anchors := o.anchors,
           timeline := s.timeline + [p],
           stats := if p.Pitched() then Record(s.stats, p.Key(), p.midi.value) else s.stats)
    case OtherChild => s
  }

  function RunChildren(s: ParseState, cs: seq<MeasureChild>, measure: int): ParseState
    decreases |cs|
  {
    if cs == [] then s else RunChildren(StepChild(s, cs[0], measure), cs[1..], measure)
  }

  function BeginMeasure(s: ParseState): ParseState
  {
    s.(measureCursor := s.cursor, measureMax := s.cursor)
  }

  /** `cursor_beat = max(cursor_beat, measure_max)`. */
  function EndMeasure(s: ParseState): ParseState
  {
    s.(cursor := Max(s.cursor, s.measureMax))
  }

  /** `int(measure.attrib.get("number", str(measure_idx)))`. */
  function MeasureNumber(m: Measure, index: int): int
  {
    if m.number.Some? then m.number.value else index
  }

  function RunMeasure(s: ParseState, m: Measure, index: int): ParseState
  {
    EndMeasure(RunChildren(BeginMeasure(s), m.children, MeasureNumber(m, index)))
  }

  function RunMeasures(s: ParseState, ms: seq<Measure>, index: int): ParseState
    decreases |ms|
  {
    if ms == [] then s else RunMeasures(RunMeasure(s, ms[0], index), ms[1..], index + 1)
  }

  /** The timeline, statistics, tempo and time signature of one part. */
  function BuildTimeline(part: Part): (r: ParseState)
    ensures Consistent(r) && r.cursor >= 0.0
  {
    InitialConsistent();
    RunMeasuresConsistent(Initial, part.measures, 1);
    CursorNeverDecreases(Initial, part.measures, 1);
    RunMeasures(Initial, part.measures, 1)
  }

  // ---------------------------------------------------------------------------------------
  // Cursor properties

  /** Within a measure `measure_max` never decreases, and the part cursor stays put. */
  lemma {:induction false} MeasureMaxNeverDecreases(s: ParseState, cs: seq<MeasureChild>, measure: int)
    ensures RunChildren(s, cs, measure).measureMax >= s.measureMax
    ensures RunChildren(s, cs, measure).cursor == s.cursor
    decreases |cs|
  {
    if cs != [] {
      MeasureMaxNeverDecreases(StepChild(s, cs[0], measure), cs[1..], measure);
    }
  }

  /** At a measure boundary the part cursor becomes the measure's furthest position. */
  lemma MeasureEndsAtMax(s: ParseState, m: Measure, index: int)
    ensures var inner := RunChildren(BeginMeasure(s), m.children, MeasureNumber(m, index));
      RunMeasure(s, m, index).cursor == inner.measureMax >= s.cursor
  {
    MeasureMaxNeverDecreases(BeginMeasure(s), m.children, MeasureNumber(m, index));
  }

  /** Across measures the part cursor never decreases. */
  lemma {:induction false} CursorNeverDecreases(s: ParseState, ms: seq<Measure>, index: int)
    ensures RunMeasures(s, ms, index).cursor >= s.cursor
    decreases |ms|
  {
    if ms != [] {
      MeasureEndsAtMax(s, ms[0], index);
      CursorNeverDecreases(RunMeasure(s, ms[0], index), ms[1..], index + 1);
    }
  }

  /** Once a tempo is found, no later child changes it: the first tempo marking wins. */
  lemma {:induction false} TempoFirstWins(s: ParseState, cs: seq<MeasureChild>, measure: int)
    requires s.tempo.Some?
    ensures RunChildren(s, cs, measure).tempo == s.tempo
    decreases |cs|
  {
    if cs != [] {
      TempoFirstWins(StepChild(s, cs[0], measure), cs[1..], measure);
    }
  }

  // ---------------------------------------------------------------------------------------
  // The statistics describe the timeline

  /** Pitched timeline notes of `key`. */
  function PitchedCount(t: seq<TimelineNote>, key: VoiceKey): nat
  {
    if t == [] then 0
    else PitchedCount(t[..|t| - 1], key) + (if t[|t| - 1].Pitched() && t[|t| - 1].Key() == key then 1 else 0)
  }

  /** Sum of the MIDI numbers of the pitched timeline notes of `key`. */
  function PitchedSum(t: seq<TimelineNote>, key: VoiceKey): int
  {
    if t == [] then 0
    else
      var last := t[|t| - 1];
      PitchedSum(t[..|t| - 1], key) + (if last.Pitched() && last.Key() == key then last.midi.value else 0)
  }

  /** What holds of the parser's state between any two children. */
  ghost predicate Consistent(s: ParseState)
  {
    s.divisions >= 1 && WellFormedNotes(s.timeline) && Describes(s.stats, s.timeline)
  }

  /** Every note lasts more than 0 beats; it has a MIDI number, and a name, exactly when not a rest. */
  ghost predicate WellFormedNotes(t: seq<TimelineNote>)
  {
    forall i :: 0 <= i < |t| ==>
      && t[i].durationBeat > 0.0
      && (t[i].isRest <==> t[i].midi.None?)
      && (t[i].pitch.None? <==> t[i].midi.None?)
  }

  /** `stats` holds one entry per voice with pitched notes, with their count and MIDI sum. */
  ghost predicate Describes(stats: seq<VoiceStats>, t: seq<TimelineNote>)
  {
    && DistinctKeys(stats)
    && (forall k :: CountOf(stats, k) == PitchedCount(t, k))
    && (forall k :: SumOf(stats, k) == PitchedSum(t, k))
    && (forall k :: HasKey(stats, k) <==> PitchedCount(t, k) > 0)
  }

  lemma InitialConsistent()
    ensures Consistent(Initial)
  {
  }

  /** Appending a note to the timeline, and recording it when pitched, keeps the statistics exact. */
  lemma AppendDescribes(stats: seq<VoiceStats>, t: seq<TimelineNote>, p: TimelineNote)
    requires Describes(stats, t) && p.midi.Some?
    ensures Describes(if p.Pitched() then Record(stats, p.Key(), p.midi.value) else stats, t + [p])
  {
    var t' := t + [p];
    assert t'[..|t'| - 1] == t;
  }

  lemma AppendDescribesRest(stats: seq<VoiceStats>, t: seq<TimelineNote>, p: TimelineNote)
    requires Describes(stats, t) && p.midi.None?
    ensures Describes(stats, t + [p])
  {
    var t' := t + [p];
    assert t'[..|t'| - 1] == t;
  }

  lemma StepChildConsistent(s: ParseState, c: MeasureChild, measure: int)
    requires Consistent(s)
    ensures Consistent(StepChild(s, c, measure))
  {
    if c.NoteChild? {
      var o := ParseNote(c.note, s.measureCursor, s.divisions, measure, s.anchors);
      NotePlacement(c.note, s.measureCursor, s.divisions, measure, s.anchors);
      if o.parsed.Some? {
        var p := o.parsed.value;
        if p.midi.Some? {
          AppendDescribes(s.stats, s.timeline, p);
        } else {
          AppendDescribesRest(s.stats, s.timeline, p);
        }
        assert WellFormedNotes(s.timeline + [p]) by {
          var t := s.timeline + [p];
          assert forall i :: 0 <= i < |s.timeline| ==> t[i] == s.timeline[i];
        }
      }
    }
  }

  lemma {:induction false} RunChildrenConsistent(s: ParseState, cs: seq<MeasureChild>, measure: int)
    requires Consistent(s)
    ensures Consistent(RunChildren(s, cs, measure))
    decreases |cs|
  {
    if cs != [] {
      StepChildConsistent(s, cs[0], measure);
      RunChildrenConsistent(StepChild(s, cs[0], measure), cs[1..], measure);
    }
  }

  lemma {:induction false} RunMeasuresConsistent(s: ParseState, ms: seq<Measure>, index: int)
    requires Consistent(s)
    ensures Consistent(RunMeasures(s, ms, index))
    decreases |ms|
  {
    if ms != [] {
      var m := ms[0];
      RunChildrenConsistent(BeginMeasure(s), m.children, MeasureNumber(m, index));
      RunMeasuresConsistent(RunMeasure(s, m, index), ms[1..], index + 1);
    }
  }

  /**
   * After a whole part: every timeline note lasts more than 0 beats, has a MIDI number and
   * a name exactly when it is not a rest, and `voice_stats` counts (and sums the MIDI
   * numbers of) exactly the pitched notes of each (staff, voice).
   */
  // ---------------------------------------------------------------------------------------
  // A worked example: two voices laid out with <backup> and <forward>

  /** A pitched note with no tie, slur, articulation or chord mark. */
  function PlainNote(step: Step, octave: int, duration: real, staff: string, voice: string): NoteNode
  {
    NoteNode(false, duration, Some(staff), Some(voice), false, false, [], None,
             Some(PitchNode(Some(step), None, Some(octave))))
  }

  /** A plain note is placed at the cursor, named and numbered from its pitch, and moves the cursor on. */
  lemma PlainNoteOutcome(step: Step, octave: int, duration: real, staff: string, voice: string,
                         cursor: real, measure: int, anchors: map<VoiceKey, real>)
    requires duration > 0.0 && staff != "" && voice != ""
    ensures ParseNote(PlainNote(step, octave, duration, staff, voice), cursor, 1, measure, anchors)
         == NoteOutcome(Some(TimelineNote(cursor, duration, measure, staff, voice, false, false,
                                          Some(PitchName(step, 0, octave)), Some(MidiNumber(step, 0, octave)),
                                          false, false, 0, 0, false)),
                        cursor + duration, anchors[VoiceKey(staff, voice) := cursor])
  {
    assert duration / 1 as real == duration;
    assert !HasStaccato([]);
  }

  /** A plain note as one child of the loop: appended, recorded, and the cursor moves on. */
  lemma PlainNoteStep(s: ParseState, step: Step, octave: int, duration: real, staff: string, voice: string,
                      measure: int)
    requires duration > 0.0 && staff != "" && voice != "" && s.divisions == 1
    ensures StepChild(s, NoteChild(PlainNote(step, octave, duration, staff, voice)), measure)
         == s.(measureCursor := s.measureCursor + duration,
               measureMax := Max(s.measureMax, s.measureCursor + duration),
               anchors := s.anchors[VoiceKey(staff, voice) := s.measureCursor],
               timeline := s.timeline + [TimelineNote(s.measureCursor, duration, measure, staff, voice, false, false,
                                                      Some(PitchName(step, 0, octave)), Some(MidiNumber(step, 0, octave)),
                                                      false, false, 0, 0, false)],
               stats := Record(s.stats, VoiceKey(staff, voice), MidiNumber(step, 0, octave)))
  {
    PlainNoteOutcome(step, octave, duration, staff, voice, s.measureCursor, measure, s.anchors);
  }

  /** The timeline note a plain note of measure 1 becomes. */
  function Placed(start: real, duration: real, staff: string, voice: string, step: Step, octave: int): TimelineNote
  {
    TimelineNote(start, duration, 1, staff, voice, false, false,
                 Some(PitchName(step, 0, octave)), Some(MidiNumber(step, 0, octave)), false, false, 0, 0, false)
  }

  /** The children of the measure in `BackupForwardExample`. */
  const BackupForwardChildren: seq<MeasureChild> := [
    Attributes(Some(1), Some(TimeNode(Some("4"), Some("4")))),
    NoteChild(PlainNote(C, 5, 1.0, "1", "1")),
    Backup(1.0),
    NoteChild(PlainNote(C, 3, 2.0, "2", "2")),
    Forward(1.0),
    NoteChild(PlainNote(D, 5, 1.0, "1", "1"))]

  /** The first three children: attributes, C5, back one beat. */
  lemma BackupForwardFirstHalf() returns (s3: ParseState)
    ensures RunChildren(BeginMeasure(Initial), BackupForwardChildren, 1) == RunChildren(s3, BackupForwardChildren[3..], 1)
    ensures s3.divisions == 1 && s3.measureCursor == 0.0 && s3.measureMax == 1.0 && s3.cursor == 0.0
    ensures s3.timeSignature == "4/4" && |s3.timeline| == 1
    ensures s3.timeline[0].startBeat == 0.0 && s3.timeline[0].pitch == Some(PitchName(C, 0, 5))
    ensures s3.timeline == [Placed(0.0, 1.0, "1", "1", C, 5)]
    ensures s3.stats == Record([], VoiceKey("1", "1"), MidiNumber(C, 0, 5))
  {
    var t0 := BackupForwardChildren;
    var s0 := BeginMeasure(Initial);
    assert TimeSignatureText(TimeNode(Some("4"), Some("4"))) == "4/4";
    var s1 := s0.(divisions := 1, timeSignature := "4/4");
    assert StepChild(s0, t0[0], 1) == s1;
    PlainNoteStep(s1, C, 5, 1.0, "1", "1", 1);
    var s2 := StepChild(s1, t0[1], 1);
    s3 := s2.(measureCursor := 0.0);
    assert Beats(1.0, 1) == 1.0;
    assert StepChild(s2, t0[2], 1) == s3;
    assert RunChildren(s2, t0[2..], 1) == RunChildren(s3, t0[3..], 1);
    assert RunChildren(s1, t0[1..], 1) == RunChildren(s3, t0[3..], 1);
  }

  /** The fourth and fifth children: C3 in the second voice, then forward one beat. */
  lemma BackupForwardLowerVoice(s3: ParseState) returns (s5: ParseState)
    requires s3.divisions == 1 && s3.measureCursor == 0.0 && s3.measureMax == 1.0
    ensures RunChildren(s3, BackupForwardChildren[3..], 1) == RunChildren(s5, BackupForwardChildren[5..], 1)
    ensures s5.divisions == 1 && s5.measureCursor == 3.0 && s5.measureMax == 3.0
    ensures s5.timeSignature == s3.timeSignature && s5.cursor == s3.cursor
    ensures s5.timeline == s3.timeline + [Placed(0.0, 2.0, "2", "2", C, 3)]
    ensures s5.stats == Record(s3.stats, VoiceKey("2", "2"), MidiNumber(C, 0, 3))
  {
    var t3 := BackupForwardChildren[3..];
    PlainNoteStep(s3, C, 3, 2.0, "2", "2", 1);
    var s4 := StepChild(s3, t3[0], 1);
    s5 := s4.(measureCursor := 3.0, measureMax := 3.0);
    assert Beats(1.0, 1) == 1.0;
    assert StepChild(s4, t3[1], 1) == s5;
    assert RunChildren(s4, t3[1..], 1) == RunChildren(s5, t3[2..], 1);
    assert t3[2..] == BackupForwardChildren[5..];
  }

  /** The last three children: C3 in the second voice, forward one beat, D5. */
  lemma BackupForwardSecondHalf(s3: ParseState)
    requires s3.divisions == 1 && s3.measureCursor == 0.0 && s3.measureMax == 1.0 && |s3.timeline| == 1
    ensures var st := RunChildren(s3, BackupForwardChildren[3..], 1);
      && st.measureMax == 4.0 && st.timeSignature == s3.timeSignature && st.cursor == s3.cursor
      && |st.timeline| == 3 && st.timeline[0] == s3.timeline[0]
      && st.timeline[1].startBeat == 0.0 && st.timeline[1].Key() == VoiceKey("2", "2")
      && st.timeline[2].startBeat == 3.0 && st.timeline[2].pitch == Some(PitchName(D, 0, 5))
      && st.timeline == s3.timeline + [Placed(0.0, 2.0, "2", "2", C, 3), Placed(3.0, 1.0, "1", "1", D, 5)]
      && st.stats == Record(Record(s3.stats, VoiceKey("2", "2"), MidiNumber(C, 0, 3)), VoiceKey("1", "1"), MidiNumber(D, 0, 5))
  {
    var s5 := BackupForwardLowerVoice(s3);
    var t5 := BackupForwardChildren[5..];
    PlainNoteStep(s5, D, 5, 1.0, "1", "1", 1);
    var s6 := StepChild(s5, t5[0], 1);
    assert s6.timeline == s5.timeline + [Placed(3.0, 1.0, "1", "1", D, 5)];
    assert RunChildren(s6, t5[1..], 1) == s6;
    assert RunChildren(s5, t5, 1) == s6;
  }

  /** The measure of `BackupForwardExample`. */
  const BackupForwardPart := Part([Measure(Some(1), BackupForwardChildren)])

  /** The state after the example's part, note by note. */
  lemma BackupForwardState()
    ensures var st := BuildTimeline(BackupForwardPart);
      && st.timeSignature == "4/4"
      && st.cursor == 4.0
      && st.timeline == [Placed(0.0, 1.0, "1", "1", C, 5), Placed(0.0, 2.0, "2", "2", C, 3),
                         Placed(3.0, 1.0, "1", "1", D, 5)]
      && st.stats == [VoiceStats(VoiceKey("1", "1"), 2, 146), VoiceStats(VoiceKey("2", "2"), 1, 48)]
  {
    var s3 := BackupForwardFirstHalf();
    BackupForwardSecondHalf(s3);
    var m := Measure(Some(1), BackupForwardChildren);
    SingleMeasure(m);
    var inner := RunChildren(BeginMeasure(Initial), BackupForwardChildren, 1);
    assert RunMeasure(Initial, m, 1) == inner.(cursor := 4.0);
    BackupForwardStats();
  }

  /** A part of one measure is that measure run from the initial state. */
  lemma SingleMeasure(m: Measure)
    ensures BuildTimeline(Part([m])) == RunMeasure(Initial, m, 1)
  {
    assert [m][1..] == [];
    assert RunMeasures(Initial, [m], 1) == RunMeasures(RunMeasure(Initial, m, 1), [], 2);
  }

  /**
   * C5 (staff 1, voice 1), back one beat, C3 for two beats (staff 2, voice 2), forward one
   * beat, D5 (staff 1, voice 1): the first voice's notes start at beats 0 and 3, and the part
   * cursor ends at beat 4.
   */
  lemma BackupForwardExample()
    ensures var st := BuildTimeline(BackupForwardPart);
      && |st.timeline| == 3
      && st.timeline[0].startBeat == 0.0 && st.timeline[0].pitch == Some("C5")
      && st.timeline[1].startBeat == 0.0 && st.timeline[1].Key() == VoiceKey("2", "2")
      && st.timeline[2].startBeat == 3.0 && st.timeline[2].pitch == Some("D5")
      && st.timeSignature == "4/4"
      && st.cursor == 4.0
  {
    BackupForwardState();
    assert IntString(5) == "5";
    assert PitchName(C, 0, 5) == "C5" && PitchName(D, 0, 5) == "D5";
  }

  /** The statistics of the example: staff 1 voice 1 holds C5 and D5, staff 2 voice 2 holds C3. */
  lemma BackupForwardStats()
    ensures Record(Record(Record([], VoiceKey("1", "1"), MidiNumber(C, 0, 5)), VoiceKey("2", "2"), MidiNumber(C, 0, 3)),
                   VoiceKey("1", "1"), MidiNumber(D, 0, 5))
         == [VoiceStats(VoiceKey("1", "1"), 2, 146), VoiceStats(VoiceKey("2", "2"), 1, 48)]
  {
    var a := Record([], VoiceKey("1", "1"), MidiNumber(C, 0, 5));
    assert a == [VoiceStats(VoiceKey("1", "1"), 1, 72)];
    var b := Record(a, VoiceKey("2", "2"), MidiNumber(C, 0, 3));
    assert b == [VoiceStats(VoiceKey("1", "1"), 1, 72), VoiceStats(VoiceKey("2", "2"), 1, 48)];
  }

  // ---------------------------------------------------------------------------------------
  // The loop itself

  /** The loop over one measure's children, over the local variables of `parse_musicxml`. */
  method ScanMeasure(s: ParseState, children: seq<MeasureChild>, sourceMeasure: int) returns (r: ParseState)
    ensures r == RunChildren(s, children, sourceMeasure)
  {
    var measureCursor, measureMax, divisions := s.measureCursor, s.measureMax, s.divisions;
    var tempo, timeSignature, timeline := s.tempo, s.timeSignature, s.timeline;
    var voiceStats, chordAnchor := s.stats, s.anchors;
    var j := 0;
    while j < |children|
      invariant 0 <= j <= |children|
      invariant RunChildren(ParseState(s.cursor, measureCursor, measureMax, divisions, tempo,
                                       timeSignature, timeline, voiceStats, chordAnchor),
                            children[j..], sourceMeasure)
             == RunChildren(s, children, sourceMeasure)
    {
      ghost var before := ParseState(s.cursor, measureCursor, measureMax, divisions, tempo,
                                     timeSignature, timeline, voiceStats, chordAnchor);
      var child := children[j];
      match child {
        case Attributes(d, t) =>
          if d.Some? {
            divisions := MaxInt(1, d.value);
          }
          if t.Some? {
            timeSignature := TimeSignatureText(t.value);
          }
        case Direction(perMinute, soundTempo) =>
          if tempo.None? {
            if perMinute.Some? {
              tempo := Some(Truncate(perMinute.value));
            } else if soundTempo.Some? {
              tempo := Some(Truncate(soundTempo.value));
            }
          }
        case Backup(d) =>
          measureCursor := measureCursor - Beats(d, divisions);
        case Forward(d) =>
          measureCursor := measureCursor + Beats(d, divisions);
          measureMax := Max(measureMax, measureCursor);
        case NoteChild(n) =>
          var outcome := ParseNote(n, measureCursor, divisions, sourceMeasure, chordAnchor);
          chordAnchor := outcome.anchors;
          measureCursor := outcome.nextCursor;
          if outcome.parsed.None? {
            measureMax := Max(measureMax, measureCursor);
          } else {
            var parsed := outcome.parsed.value;
            timeline := timeline + [parsed];
            measureMax := Max(Max(measureMax, parsed.startBeat + parsed.durationBeat), measureCursor);
            if !parsed.isRest && parsed.midi.Some? {
              voiceStats := Record(voiceStats, parsed.Key(), parsed.midi.value);
            }
          }
        case OtherChild =>
      }
      assert ParseState(s.cursor, measureCursor, measureMax, divisions, tempo,
                        timeSignature, timeline, voiceStats, chordAnchor)
          == StepChild(before, child, sourceMeasure);
      assert children[j..][1..] == children[j + 1..];
      j := j + 1;
    }
    assert children[j..] == [];
    r := ParseState(s.cursor, measureCursor, measureMax, divisions, tempo,
                    timeSignature, timeline, voiceStats, chordAnchor);
  }

  /** The measure loop of `parse_musicxml`: each measure starts at the part cursor and pushes it to its end. */
  method ScanPart(part: Part) returns (st: ParseState)
    ensures st == BuildTimeline(part)
  {
    var cursorBeat, measureCursor, measureMax := 0.0, 0.0, 0.0;
    var divisions := 1;
    var tempo: Option<int> := None;
    var timeSignature := "4/4";
    var timeline: seq<TimelineNote> := [];
    var voiceStats: seq<VoiceStats> := [];
    var chordAnchor: map<VoiceKey, real> := map[];
    var measures := part.measures;
    var i := 0;
    while i < |measures|
      invariant 0 <= i <= |measures|
      invariant RunMeasures(ParseState(cursorBeat, measureCursor, measureMax, divisions, tempo,
                                       timeSignature, timeline, voiceStats, chordAnchor),
                            measures[i..], i + 1) == BuildTimeline(part)
    {
      var measure := measures[i];
      var sourceMeasure := MeasureNumber(measure, i + 1);
      measureCursor := cursorBeat;
      measureMax := cursorBeat;
      var start := ParseState(cursorBeat, measureCursor, measureMax, divisions, tempo,
                              timeSignature, timeline, voiceStats, chordAnchor);
      var after := ScanMeasure(start, measure.children, sourceMeasure);
      MeasureMaxNeverDecreases(start, measure.children, sourceMeasure);
      measureCursor, measureMax, divisions := after.measureCursor, after.measureMax, after.divisions;
      tempo, timeSignature, timeline := after.tempo, after.timeSignature, after.timeline;
      voiceStats, chordAnchor := after.stats, after.anchors;
      cursorBeat := Max(cursorBeat, measureMax);
      assert measures[i..][1..] == measures[i + 1..];
      i := i + 1;
    }
    st := ParseState(cursorBeat, measureCursor, measureMax, divisions, tempo,
                     timeSignature, timeline, voiceStats, chordAnchor);
  }
}
