/**
 * `_to_recognized_notes`: each merged note gets an articulation, a gate (how long it
 * actually sounds) and a phrase-break flag from the gap to the next note.
 */
module Articulation {
  import opened Wrappers
  import opened Render

  datatype Articulation = Normal | Slur | Staccato | Tie

  /** `RecognizedNote`, the shape of the response's `notes`. */
  datatype RecognizedNote = RecognizedNote(
    pitch: string,
    midi: int,
    startBeat: real,
    durationBeat: real,
    gateBeat: real,
    phraseBreakAfter: bool,
    articulation: Articulation,
    sourceMeasure: int)

  /** `epsilon = 1e-4`. */
  const Epsilon: real := 0.0001

  /** The shortest gate ever produced. */
  const MinGate: real := 0.01

  /** The last note, or one followed by a gap wider than `Epsilon`, ends a phrase. */
  predicate PhraseBreak(note: RenderNote, next: Option<RenderNote>)
    ensures next.None? ==> PhraseBreak(note, next)
    ensures next.Some? && next.value.startBeat <= note.startBeat + note.durationBeat ==> !PhraseBreak(note, next)
  {
    next.None? || next.value.startBeat - (note.startBeat + note.durationBeat) > Epsilon
  }

  /** Tie first, then staccato, then slur, else normal. */
  function ArticulationOf(note: RenderNote): (a: Articulation)
    ensures a == Tie <==> note.isTie
    ensures a == Staccato <==> !note.isTie && note.staccato
    ensures a == Slur <==> !note.isTie && !note.staccato && note.inSlur
    ensures a == Normal <==> !note.isTie && !note.staccato && !note.inSlur
  {
    if note.isTie then Tie
    else if note.staccato then Staccato
    else if note.inSlur then Slur
    else Normal
  }

  /** The share of the duration each articulation sounds for. */
  function GateFactor(a: Articulation): (f: real)
    ensures 0.0 < f <= 1.0
    ensures f == 1.0 <==> a == Tie
  {
    match a
    case Tie => 1.0
    case Staccato => 0.50
    case Slur => 0.98
    case Normal => 0.92
  }

  /** The gate before the 0.01 floor: shortened by 0.85 at a phrase break, except for ties. */
  /**
   * The gate before the `MinGate` floor: a tie sounds its whole duration, any other
   * articulation strictly less of a positive one, and no gate exceeds its duration.
   */
  function RawGate(duration: real, a: Articulation, phraseBreak: bool): (g: real)
    ensures duration >= 0.0 ==> 0.0 <= g <= duration
    ensures a == Tie ==> g == duration
    ensures a != Tie && duration > 0.0 ==> g < duration
  {
    var gate := duration * GateFactor(a);
    if phraseBreak && a != Tie then gate * 0.85 else gate
  }

  /** The recognized form of one note, given the note after it. */
  function Recognize(note: RenderNote, next: Option<RenderNote>): (r: RecognizedNote)
    ensures r.pitch == note.pitch && r.midi == note.midi && r.sourceMeasure == note.sourceMeasure
    ensures r.startBeat == note.startBeat && r.durationBeat == note.durationBeat
    ensures r.articulation == ArticulationOf(note)
    ensures r.phraseBreakAfter == PhraseBreak(note, next)
    ensures r.gateBeat == Max(RawGate(note.durationBeat, r.articulation, r.phraseBreakAfter), MinGate)
  {
    var a := ArticulationOf(note);
    var pb := PhraseBreak(note, next);
    RecognizedNote(note.pitch, note.midi, note.startBeat, note.durationBeat,
                   Max(RawGate(note.durationBeat, a, pb), MinGate), pb, a, note.sourceMeasure)
  }

  /** `_to_recognized_notes`: one recognized note per input note, each looking at its successor. */
  function RecognizeAll(notes: seq<RenderNote>): (r: seq<RecognizedNote>)
    ensures |r| == |notes|
    ensures forall i :: 0 <= i < |r| ==>
      && r[i].pitch == notes[i].pitch && r[i].midi == notes[i].midi
      && r[i].startBeat == notes[i].startBeat && r[i].durationBeat == notes[i].durationBeat
      && r[i].sourceMeasure == notes[i].sourceMeasure
      && r[i].articulation == ArticulationOf(notes[i])
      && (r[i].phraseBreakAfter <==>
            i == |notes| - 1 || notes[i + 1].startBeat - (notes[i].startBeat + notes[i].durationBeat) > Epsilon)
      && r[i].gateBeat == Max(RawGate(notes[i].durationBeat, r[i].articulation, r[i].phraseBreakAfter), MinGate)
  {
    var r := seq(|notes|, i requires 0 <= i < |notes| => Recognize(notes[i], Successor(notes, i)));
    assert forall i :: 0 <= i < |r| ==> r[i] == Recognize(notes[i], Successor(notes, i));
    r
  }

  /** The note after the `i`-th, if any. */
  function Successor(notes: seq<RenderNote>, i: nat): (r: Option<RenderNote>)
    requires i < |notes|
    ensures r.None? <==> i == |notes| - 1
    ensures r.Some? ==> r.value == notes[i + 1]
  {
    if i + 1 < |notes| then Some(notes[i + 1]) else None
  }

  // ---------------------------------------------------------------------------------------
  // Properties of the gate

  /**
   * The gate is never below 0.01; a tie sounds for its whole duration; any other note sounds
   * for less than its duration, and a phrase break shortens it further.
   */
  lemma GateBounds(note: RenderNote, next: Option<RenderNote>)
    ensures var r := Recognize(note, next);
      && r.gateBeat >= MinGate
      && (note.isTie ==> r.gateBeat == Max(note.durationBeat, MinGate))
      && (!note.isTie && note.durationBeat > 0.0 ==> r.gateBeat < note.durationBeat || r.gateBeat == MinGate)
      && (r.gateBeat > MinGate ==> r.gateBeat <= Max(note.durationBeat, MinGate))
  {
  }

  /**
   * The gate of every note, whatever its duration: the whole duration for a tie; otherwise
   * 0.50, 0.98 or 0.92 of it for staccato, slur and normal notes, times 0.85 at a phrase
   * break; never below 0.01.
   */
  lemma GateShares(note: RenderNote, next: Option<RenderNote>)
    ensures var r := Recognize(note, next); var d := note.durationBeat; var pb := PhraseBreak(note, next);
      && (r.articulation == Tie ==> r.gateBeat == Max(d, MinGate))
      && (r.articulation == Staccato && !pb ==> r.gateBeat == Max(0.50 * d, MinGate))
      && (r.articulation == Staccato && pb ==> r.gateBeat == Max(0.425 * d, MinGate))
      && (r.articulation == Slur && !pb ==> r.gateBeat == Max(0.98 * d, MinGate))
      && (r.articulation == Slur && pb ==> r.gateBeat == Max(0.833 * d, MinGate))
      && (r.articulation == Normal && !pb ==> r.gateBeat == Max(0.92 * d, MinGate))
      && (r.articulation == Normal && pb ==> r.gateBeat == Max(0.782 * d, MinGate))
  {
  }

  /** At a phrase break the gate is 0.85 of what it would be otherwise (before the floor). */
  lemma PhraseBreakShortens(duration: real, a: Articulation)
    requires a != Tie && duration > 0.0
    ensures RawGate(duration, a, true) == 0.85 * RawGate(duration, a, false) < RawGate(duration, a, false)
  {
  }

  /** The values the parser's tests expect for one-beat notes and a three-beat tie. */
  lemma GateExamples()
    ensures RawGate(1.0, Normal, false) == 0.92
    ensures RawGate(1.0, Normal, true) == 0.782
    ensures RawGate(1.0, Slur, false) == 0.98
    ensures RawGate(1.0, Staccato, true) == 0.425
    ensures Max(RawGate(3.0, Tie, true), MinGate) == 3.0
  {
  }
}
