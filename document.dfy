/**
 * A MusicXML 3.1 `score-partwise` document after XML parsing, reduced to the elements
 * and attributes the timeline engine reads. Numeric texts are already parsed:
 * a duration that is absent or not a number is 0.0, as `_as_number(...) or 0.0` makes it.
 */
module Document {
  import opened Wrappers

  /** The seven letter names of `<step>`. */
  datatype Step = C | D | E | F | G | A | B

  /** `<pitch>`: each child may be missing (defaults C, 0 and 4 apply). */
  datatype PitchNode = PitchNode(step: Option<Step>, alter: Option<int>, octave: Option<int>)

  /** The children of `<notations>` that matter: slurs and the articulation marks. */
  datatype NotationChild =
    | SlurMark(slurType: string)
    | ArticulationsMark(marks: seq<string>)
    | OtherNotation

  /** `<note>`; the flags say whether `<grace>`, `<chord>` and `<rest>` occur in it. */
  datatype NoteNode = NoteNode(
    grace: bool,
    duration: real,
    staff: Option<string>,
    voice: Option<string>,
    chord: bool,
    rest: bool,
    tieTypes: seq<string>,
    notations: Option<seq<NotationChild>>,
    pitch: Option<PitchNode>)

  /** `<time>` with its `<beats>` and `<beat-type>` texts, either of which may be missing. */
  datatype TimeNode = TimeNode(beats: Option<string>, beatType: Option<string>)

  /**
   * A child of `<measure>`. `divisions` is present only when its text is all digits;
   * a direction carries the metronome per-minute value (when a metronome with a numeric
   * per-minute is present) and the sound tempo attribute (when numeric).
   */
  datatype MeasureChild =
    | Attributes(divisions: Option<nat>, time: Option<TimeNode>)
    | Direction(perMinute: Option<real>, soundTempo: Option<real>)
    | Backup(backupDuration: real)
    | Forward(forwardDuration: real)
    | NoteChild(note: NoteNode)
    | OtherChild

  /** `<measure>` with its optional `number` attribute. */
  datatype Measure = Measure(number: Option<int>, children: seq<MeasureChild>)

  datatype Part = Part(measures: seq<Measure>)

  /** The root's `<part>` children, in document order. */
  datatype ScoreDocument = ScoreDocument(parts: seq<Part>)
}
