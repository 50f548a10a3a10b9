/** Pitch spelling and MIDI numbers (`SEMITONES`, `_pitch_to_midi` and the pitch-name rule). */
module Pitch {
  import opened Text
  import opened Document

  /** The `SEMITONES` table: semitones above C within one octave. */
  function Semitone(step: Step): (r: int)
    ensures 0 <= r <= 11
  {
    match step
    case C => 0
    case D => 2
    case E => 4
    case F => 5
    case G => 7
    case A => 9
    case B => 11
  }

  function StepLetter(step: Step): char
  {
    match step
    case C => 'C'
    case D => 'D'
    case E => 'E'
    case F => 'F'
    case G => 'G'
    case A => 'A'
    case B => 'B'
  }

  /** `_pitch_to_midi`: `(octave + 1) * 12 + SEMITONES[step] + alter`. */
  function MidiNumber(step: Step, alter: int, octave: int): (m: int)
    ensures 12 * (octave + 1) + alter <= m <= 12 * (octave + 1) + alter + 11
  {
    (octave + 1) * 12 + Semitone(step) + alter
  }

  /** The accidental glyph: only a single sharp or flat is spelled. */
  function Accidental(alter: int): string
  {
    if alter == 1 then "#" else if alter == -1 then "b" else ""
  }

  /** `f"{step}{accidental}{octave}"`. */
  function PitchName(step: Step, alter: int, octave: int): (r: string)
    ensures |r| >= 2 && r[0] == StepLetter(step) && '0' <= r[|r| - 1] <= '9'
  {
    [StepLetter(step)] + Accidental(alter) + IntString(octave)
  }

  /** The MIDI number of a natural (unaltered) note determines its step and octave. */
  lemma NaturalMidiInjective(s1: Step, o1: int, s2: Step, o2: int)
    requires MidiNumber(s1, 0, o1) == MidiNumber(s2, 0, o2)
    ensures s1 == s2 && o1 == o2
  {
  }

  /** Every alteration shifts the MIDI number by exactly that many semitones. */
  lemma MidiAlteration(step: Step, alter: int, octave: int)
    ensures MidiNumber(step, alter, octave) == MidiNumber(step, 0, octave) + alter
    ensures 12 * (octave + 1) <= MidiNumber(step, 0, octave) <= 12 * (octave + 1) + 11
  {
  }

  /**
   * A double sharp or double flat (or any alteration other than -1, 0, +1) changes the MIDI
   * number but has no glyph: its name is that of the natural note.
   */
  lemma UnspelledAlteration(step: Step, alter: int, octave: int)
    requires alter != 1 && alter != -1
    ensures PitchName(step, alter, octave) == PitchName(step, 0, octave)
    ensures MidiNumber(step, alter, octave) == MidiNumber(step, 0, octave) + alter
  {
  }

  /** How a name splits into letter, glyph and octave digits. */
  lemma PitchNameParts(step: Step, alter: int, octave: int)
    requires -1 <= alter <= 1
    ensures var n := PitchName(step, alter, octave);
      && |n| >= 2 && n[0] == StepLetter(step)
      && (n[1] == '#' <==> alter == 1) && (n[1] == 'b' <==> alter == -1)
      && n[1 + |Accidental(alter)|..] == IntString(octave)
  {
    IntStringSign(octave);
    var n := PitchName(step, alter, octave);
    assert n[1 + |Accidental(alter)|..] == IntString(octave);
    if alter == 0 {
      assert n[1] == IntString(octave)[0];
    }
  }

  /** With alterations of -1, 0, +1 only, the name determines step, alteration and octave. */
  lemma PitchNameInjective(s1: Step, a1: int, o1: int, s2: Step, a2: int, o2: int)
    requires -1 <= a1 <= 1 && -1 <= a2 <= 1
    requires PitchName(s1, a1, o1) == PitchName(s2, a2, o2)
    ensures s1 == s2 && a1 == a2 && o1 == o2
  {
    PitchNameParts(s1, a1, o1);
    PitchNameParts(s2, a2, o2);
    assert a1 == a2;
    IntStringInjective(o1, o2);
  }
}
