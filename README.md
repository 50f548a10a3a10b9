# Sheet-music recognition: the score-to-playback core, in Dafny

This project models the deterministic core of a sheet-music recognition service. The first part
is the MusicXML timeline engine `parse_musicxml`. It walks the measures of an already decoded
MusicXML 3.1 `score-partwise` document with a beat cursor, places notes and chord members, and
counts notes per `(staff, voice)`. From those counts it picks a right-hand and a left-hand
voice. Each hand's timeline then becomes render notes that carry slur state. Tie chains merge
into single notes, and each note gets an articulation, a gate and a phrase-break flag. Notes
that share an onset are grouped into chord-shaped playback events, and the events of both hands
are sorted together. The second part is the pure part of the catalog service: instrument and
title validation, the lookup by id, the in-place update of an entry, the guarded reset, and the
playback events rebuilt for stored records that have none. The third part is the event filter
and the hand-to-instrument rule of the web player.

Each stage is a specification function plus the loop the program runs. The loop is a `method`
whose `ensures` ties its result to that function, and the properties are lemmas about the
functions. The modules follow the program's stages:

- `Document`: the decoded document.
- `Pitch`: MIDI numbers and pitch names.
- `Voices`: the per-voice statistics and the lead-voice choice.
- `Timeline`: `_parse_note_node` and the measure loop.
- `Render`: `_build_render_notes`.
- `Ties`: `_merge_ties`.
- `Articulation`: `_to_recognized_notes`.
- `Playback`: `_to_playback_events` and the final sort.
- `Parser`: voice selection and response assembly.
- `Catalog`: the catalog service.
- `Player`: the web player.
- `Text`, `Ordering`, `Wrappers` and `Diagnostics` are shared helpers. `Text` covers `str.strip`, string order and `str(int)`. `Ordering` is Python's sort. `Diagnostics` holds the warnings.

The catalog index is a `class CatalogIndex` with a `seq<Entry>` field that its methods update.
Beats are `real`.

Behaviour of the code that the model keeps as written:
- A note whose duration works out to 0 or less leaves the cursor where it was (`musicxml_parser.py:134-135`).
- A render note's `is_tie` is `tie_start or tie_stop` (`musicxml_parser.py:353`). A tie start copied into `active` gets `is_tie = True` before any stop is absorbed (`:261`), so a chain that is never closed is still output as a tie (`Ties.OpenStep`).
- Tie types are read from the note's own `<tie>` children (`:151-155`), not from `<notations>`.
- A second tie start on a pitch that is already open, without a stop, overwrites the open note in place. The earlier note is dropped (`Ties.RestartReplaces`).
- `event.midi or -1` also sorts a MIDI number of 0 as -1 (`Parser.TimelineOrder`).

## Model

| member | source | states |
|---|---|---|
| Text.Strip | apps/omr-service/src/services/catalog_service.py:129 | `strip` cuts whitespace, the characters `str.isspace()` accepts, from both ends only. The result is an infix of the input, the cut parts are all whitespace, and the result neither starts nor ends with whitespace. |
| Text.StripEmptyIffAllSpace | apps/omr-service/src/services/catalog_service.py:129-131 | A stripped string is empty exactly when the input is whitespace only. |
| Text.StripIdempotent | apps/omr-service/src/services/catalog_service.py:289 | Stripping twice is the same as stripping once. |
| Text.StrLessIrreflexive | apps/omr-service/src/services/musicxml_parser.py:218-221 | No string sorts before itself. |
| Text.StrLessTrans | apps/omr-service/src/services/musicxml_parser.py:218-221 | Python's string order, used on staff and voice tokens, is transitive. |
| Text.StrLessTotal | apps/omr-service/src/services/musicxml_parser.py:218-221 | Of two different strings, one sorts before the other. |
| Text.NatString | apps/omr-service/src/services/musicxml_parser.py:192 | `str(n)` is decimal digits only, and it has two or more digits exactly when n >= 10. |
| Text.IntStringInjective | apps/omr-service/src/services/musicxml_parser.py:192 | Different octaves render as different strings. |
| Ordering.KeyLeTotal | apps/omr-service/src/services/musicxml_parser.py:270 | Any two sort-key tuples are comparable. |
| Ordering.KeyLeTrans | apps/omr-service/src/services/musicxml_parser.py:270 | Tuple order is transitive. |
| Ordering.KeyLeAntisym | apps/omr-service/src/services/musicxml_parser.py:270 | Two tuples ordered both ways are equal. |
| Ordering.InsertSorted | apps/omr-service/src/services/musicxml_parser.py:270 | Inserting into a sorted list keeps it sorted. |
| Ordering.SortBy | apps/omr-service/src/services/musicxml_parser.py:270 | `sort(key=...)` returns a permutation of its input, ordered by the key. |
| Ordering.SortTwo | apps/omr-service/src/services/musicxml_parser.py:270 | Two elements already in key order stay in that order. |
| Ordering.SortDistinctStrict | apps/omr-service/src/services/musicxml_parser.py:374 | Sorting items with pairwise distinct keys orders the keys strictly. |
| Pitch.Semitone | apps/omr-service/src/services/musicxml_parser.py:11-19 | Every `SEMITONES` entry lies within one octave, 0 to 11. |
| Pitch.MidiNumber | apps/omr-service/src/services/musicxml_parser.py:43-44 | Definition of `_pitch_to_midi`. The number lies in the twelve semitones from `12 * (octave + 1) + alter`. Its properties are `MidiAlteration` and `NaturalMidiInjective`. |
| Pitch.MidiAlteration | apps/omr-service/src/services/musicxml_parser.py:43-44 | An alteration shifts the MIDI number by exactly that many semitones. A natural note's number lies in its octave's twelve. |
| Pitch.NaturalMidiInjective | apps/omr-service/src/services/musicxml_parser.py:43-44 | A natural note's MIDI number determines its step and octave. |
| Pitch.PitchName | apps/omr-service/src/services/musicxml_parser.py:187-192 | Definition of the pitch name. It starts with the step letter, has at least two characters, and ends in a digit. Its properties are `PitchNameParts`, `PitchNameInjective` and `UnspelledAlteration`. |
| Pitch.UnspelledAlteration | apps/omr-service/src/services/musicxml_parser.py:187-192 | An alteration other than -1, 0 or +1 changes the MIDI number but not the name, which is the natural note's. |
| Pitch.PitchNameParts | apps/omr-service/src/services/musicxml_parser.py:187-192 | A name is the step letter, then `#` exactly for +1 or `b` exactly for -1, then the octave digits. |
| Pitch.PitchNameInjective | apps/omr-service/src/services/musicxml_parser.py:187-192 | With alterations of -1, 0 and +1, the name determines step, alteration and octave. |
| Voices.RanksBeforeIrreflexive | apps/omr-service/src/services/musicxml_parser.py:218-221 | The ranking `(-count, -avg_pitch, staff, voice)` never puts an entry before itself. |
| Voices.RanksBeforeTrans | apps/omr-service/src/services/musicxml_parser.py:218-221 | The ranking is transitive. |
| Voices.RanksBeforeTotal | apps/omr-service/src/services/musicxml_parser.py:218-221 | Of two entries with different keys, one ranks first, so there are no ties. |
| Voices.BestEntry | apps/omr-service/src/services/musicxml_parser.py:218-222 | `ranked[0]` is an entry of the statistics, and no entry ranks before it. |
| Voices.BestEntryUnique | apps/omr-service/src/services/musicxml_parser.py:218-222 | The first-ranked entry ranks strictly before every entry with another key. |
| Voices.ChooseLeadVoice | apps/omr-service/src/services/musicxml_parser.py:215-222 | `None` exactly for empty statistics. Otherwise it is the key of an entry that no entry ranks before. |
| Voices.InStaff | apps/omr-service/src/services/musicxml_parser.py:228 | The scoped dict holds exactly the entries on that staff. It keeps distinct keys and invents none. |
| Voices.ChooseVoiceInStaff | apps/omr-service/src/services/musicxml_parser.py:225-229 | The result is always on the requested staff. It is `None` exactly when no entry is on that staff, and otherwise it is the best entry on that staff. |
| Voices.Record | apps/omr-service/src/services/musicxml_parser.py:473-477 | `setdefault` then `count += 1` and `pitch_sum += midi`: exactly that key's count grows by one and its sum by the MIDI number. It adds the key if absent and keeps keys distinct. |
| Timeline.ParseNote | apps/omr-service/src/services/musicxml_parser.py:119-212 | Definition of `_parse_note_node`. The cursor never moves back, a grace note changes nothing, and a parsed note lasts more than 0 beats and belongs to the current measure. Its properties are `NotePlacement`, `NoteMarks` and `PlainNoteOutcome`. |
| Timeline.StepChild | apps/omr-service/src/services/musicxml_parser.py:413-477 | Definition of one iteration of the loop over a measure's children. The part cursor stays put and `measure_max` never decreases. Divisions stay at least 1. The timeline keeps its notes and grows by at most one. Its properties are `StepChildConsistent`, `TempoFirstWins`, `PlainNoteStep` and `MeasureMaxNeverDecreases`. |
| Timeline.BuildTimeline | apps/omr-service/src/services/musicxml_parser.py:399-479 | Definition of the measure loop over one part. Afterwards `voice_stats` counts exactly the timeline's notes that are not rests and have a MIDI number, every timeline note lasts more than 0 beats, divisions are at least 1, and the part cursor is not negative. Its properties are `RunMeasuresConsistent`, `CursorNeverDecreases` and `BackupForwardExample`. |
| Timeline.NotePlacement | apps/omr-service/src/services/musicxml_parser.py:127-149 | A grace note or a duration of 0 or less changes nothing. A non-chord note starts at the cursor, becomes its voice's anchor, and moves the cursor by its duration. A chord member starts at the stored anchor (the cursor when there is none) and keeps the cursor. A note is dropped otherwise only when it is pitched but has no `<pitch>`. |
| Timeline.NoteMarks | apps/omr-service/src/services/musicxml_parser.py:151-212 | A placed note's MIDI number and name come from its pitch, with C, 0 and 4 for missing children. Its tie flags are the presence of `start` and `stop`, its slur counts are the numbers of slur starts and stops, and staccato means a staccato mark is present. |
| Timeline.MeasureMaxNeverDecreases | apps/omr-service/src/services/musicxml_parser.py:410-471 | Within a measure, `measure_max` never decreases and the part cursor stays put. |
| Timeline.MeasureEndsAtMax | apps/omr-service/src/services/musicxml_parser.py:479 | At a measure boundary the part cursor becomes the measure's furthest position, which is no earlier than the old cursor. |
| Timeline.CursorNeverDecreases | apps/omr-service/src/services/musicxml_parser.py:408-479 | Across measures the part cursor never decreases. |
| Timeline.TempoFirstWins | apps/omr-service/src/services/musicxml_parser.py:429-441 | Once a tempo is found, no later child changes it. |
| Timeline.InitialConsistent | apps/omr-service/src/services/musicxml_parser.py:399-406 | The initial state satisfies the loop's invariant. |
| Timeline.AppendDescribes | apps/omr-service/src/services/musicxml_parser.py:469-477 | Appending a note and recording it when pitched keeps the statistics exact. |
| Timeline.StepChildConsistent | apps/omr-service/src/services/musicxml_parser.py:413-477 | Every child keeps the invariant: divisions at least 1, every note longer than 0 with MIDI and name exactly when not a rest, and statistics that count and sum exactly the pitched notes per voice. |
| Timeline.RunChildrenConsistent | apps/omr-service/src/services/musicxml_parser.py:413-477 | A whole measure keeps the invariant. |
| Timeline.RunMeasuresConsistent | apps/omr-service/src/services/musicxml_parser.py:408-479 | Any run of measures keeps the invariant. |
| Timeline.PlainNoteOutcome | apps/omr-service/src/services/musicxml_parser.py:119-212 | A plain pitched note is placed at the cursor with its name and MIDI number, and moves the cursor on. |
| Timeline.PlainNoteStep | apps/omr-service/src/services/musicxml_parser.py:457-477 | As one child of the loop, such a note is appended and recorded while the cursor and the maximum move on. |
| Timeline.BackupForwardExample | apps/omr-service/tests/test_musicxml_parser.py:77-113 | Note, backup 1, note, forward 1, note: the first voice's notes C5 and D5 start at beats 0 and 3, and the part cursor ends at 4. |
| Timeline.BackupForwardState | apps/omr-service/tests/test_musicxml_parser.py:77-113 | The same measure, in full: the timeline is C5 at 0 for one beat, C3 at 0 for two beats on staff 2 voice 2, and D5 at 3. The statistics hold staff 1 voice 1 with two notes and staff 2 voice 2 with one. |
| Timeline.BackupForwardFirstHalf | apps/omr-service/src/services/musicxml_parser.py:413-477 | Attributes, C5 and a backup of one beat leave the cursor at 0 with C5 placed and recorded. |
| Timeline.BackupForwardLowerVoice | apps/omr-service/src/services/musicxml_parser.py:413-477 | C3 on staff 2 for two beats, then a forward of one beat, leave the cursor at beat 3 with C3 placed and recorded. |
| Timeline.BackupForwardSecondHalf | apps/omr-service/src/services/musicxml_parser.py:413-477 | The last three children add C3 at beat 0 and D5 at beat 3 and take the measure to beat 4. |
| Timeline.BackupForwardStats | apps/omr-service/src/services/musicxml_parser.py:473-477 | Recording C5, C3 and D5 gives two entries: staff 1 voice 1, counting 2 with pitch sum 146, and staff 2 voice 2, counting 1 with sum 48. |
| Timeline.SingleMeasure | apps/omr-service/src/services/musicxml_parser.py:408-479 | A part of one measure ends in the state of that measure run from the start. |
| Timeline.ScanMeasure | apps/omr-service/src/services/musicxml_parser.py:413-477 | The loop over a measure's children computes the child-by-child specification. |
| Timeline.ScanPart | apps/omr-service/src/services/musicxml_parser.py:399-479 | The measure loop computes the timeline, statistics, tempo and time signature of the specification. |
| Render.RenderStep | apps/omr-service/src/services/musicxml_parser.py:325-357 | Definition of one iteration of `_build_render_notes`. A render note is appended exactly when the event renders, earlier notes are kept, and the chord warning is added at most once and not after the flag is set. Its properties are `RenderStepNotes` and `InSlurExact`. |
| Render.RenderFold | apps/omr-service/src/services/musicxml_parser.py:325-357 | Definition of the loop. It keeps earlier notes, adds at most one per event, and leaves the warnings alone once the flag is set. Its properties are `RenderFoldNotes`, `RenderFoldWarning` and `RenderFoldDepth`. |
| Render.BuildRender | apps/omr-service/src/services/musicxml_parser.py:315-359 | Definition of one call of `_build_render_notes`. It returns at most one render note per event, and with the flag already set it passes the warnings through. Its property is `BuildRenderSpec`. |
| Render.Rendered | apps/omr-service/src/services/musicxml_parser.py:325-337 | Only pitched events, and chord members only when chords are kept, become render notes. |
| Render.RenderStepNotes | apps/omr-service/src/services/musicxml_parser.py:325-357 | A rendering event appends exactly its own copy. Rests, unpitched events and dropped chord members append nothing. |
| Render.RenderFoldNotes | apps/omr-service/src/services/musicxml_parser.py:325-357 | The loop emits one note per rendering event, in order, each copying its event's fields. |
| Render.RenderFoldWarning | apps/omr-service/src/services/musicxml_parser.py:333-337 | The chord warning is appended at most once: exactly when it had not been sent, chords are dropped, and a pitched chord member occurs. The flag records that it went out. |
| Render.InSlurExact | apps/omr-service/src/services/musicxml_parser.py:339-340 | A note is `in_slur` exactly when the depth before it is above 0, or it has slur starts, or it has slur stops. |
| Render.RenderFoldDepth | apps/omr-service/src/services/musicxml_parser.py:322-340 | The carried `slur_depth` is the open-slur count, a natural number. Rests and rendered notes move it, and nothing else does. |
| Render.NoSlurNoLegato | apps/omr-service/src/services/musicxml_parser.py:339-340 | With no slur marks and no open slur, no note is in a slur and the depth stays 0. |
| Render.BuildRenderSpec | apps/omr-service/src/services/musicxml_parser.py:315-359 | One call returns the rendering events' copies in order, with no chord member when chords are dropped, and the chord warning at most once. |
| Render.BuildRenderNotes | apps/omr-service/src/services/musicxml_parser.py:315-359 | The loop computes the notes, flag and warnings of the specification. |
| Ties.FindActive | apps/omr-service/src/services/musicxml_parser.py:238 | `key in active`: the position of the pitch among the open notes, or -1 exactly when it is absent. |
| Ties.RemoveAt | apps/omr-service/src/services/musicxml_parser.py:247 | `del active[key]`: one entry fewer, the entries before the position kept, and those after it shifted down by one. |
| Ties.MergeStep | apps/omr-service/src/services/musicxml_parser.py:236-267 | Definition of one iteration of `_merge_ties`. `merged` keeps what it had and grows by at most one. The number of merged and open notes never falls and rises by at most one. `active` stays a dictionary: one tie note per MIDI number. Its properties are `OpenStep`, `CloseStep`, `OtherStep`, `MiddleSteps` and `RestartReplaces`. |
| Ties.MergeFold | apps/omr-service/src/services/musicxml_parser.py:236-267 | Definition of the whole loop. It keeps `active` a dictionary of tie notes, and the number of merged and open notes never falls. Its properties are `TieChain`, `TieChainInterleaved`, `InterleavedRest`, `MergeFoldAppend`, `MergedGrows`, `MergeFoldSize` and `UntiedFold`. |
| Ties.MergeTies | apps/omr-service/src/services/musicxml_parser.py:269-271 | The output is the merged notes and the still-open ones, permuted and sorted by (start, measure, MIDI). |
| Ties.TieChain | apps/omr-service/src/services/musicxml_parser.py:236-248 | A start, any number of stop-and-starts, then a stop on one pitch become one note. It is the first note with `is_tie` set and no tie flags, the chain's total duration, and the OR of the chain's slur and staccato flags. The open notes are as before. |
| Ties.OpenChain | apps/omr-service/src/services/musicxml_parser.py:250-265 | A start and its stop-and-starts leave one new open note holding the chain so far. |
| Ties.OpenStep | apps/omr-service/src/services/musicxml_parser.py:250-265 | A start on a pitch not open appends its note, with `is_tie` set and tie flags cleared, to the open notes. |
| Ties.MiddleSteps | apps/omr-service/src/services/musicxml_parser.py:238-248 | Stop-and-starts extend the chain's open note in place. |
| Ties.AbsorbSteps | apps/omr-service/src/services/musicxml_parser.py:238-248 | Stop-and-starts on an open pitch fold into that open note at its position. |
| Ties.AbsorbChain | apps/omr-service/src/services/musicxml_parser.py:240-242 | Folding the rest of a chain into its start's note gives the whole chain's note. |
| Ties.ChainExtend | apps/omr-service/src/services/musicxml_parser.py:240-242 | Absorbing one note adds its duration and ORs its slur and staccato flags. |
| Ties.TieChainInterleaved | apps/omr-service/src/services/musicxml_parser.py:236-265 | A chain on one pitch whose notes are interleaved with notes of other pitches, as a tied chord's members arrive, still becomes its single chain note among the merged notes. |
| Ties.TiedChord | apps/omr-service/src/services/musicxml_parser.py:533-549 | A tied two-note chord, arriving as start, start, stop, stop, gives both chain notes. |
| Ties.InterleavedRest | apps/omr-service/src/services/musicxml_parser.py:236-248 | With a note open on a pitch, that pitch's stop-and-starts and its final stop are absorbed into it, and the result is merged, whatever notes of other pitches come between. |
| Ties.OtherStep | apps/omr-service/src/services/musicxml_parser.py:236-265 | A note of another pitch never changes the open note of a pitch. |
| Ties.CloseStep | apps/omr-service/src/services/musicxml_parser.py:238-248 | The closing stop moves the completed note to the merged list and deletes it from the open notes. |
| Ties.MergeFoldAppend | apps/omr-service/src/services/musicxml_parser.py:236-267 | The loop over a concatenation is the loop over the second part after the first. |
| Ties.RestartReplaces | apps/omr-service/src/services/musicxml_parser.py:250-265 | A second start on an open pitch without a stop replaces the open note, and the first is lost. |
| Ties.UntiedFold | apps/omr-service/src/services/musicxml_parser.py:267 | Notes without tie flags are appended to the merged list as they are. |
| Ties.UntiedPassThrough | apps/omr-service/src/services/musicxml_parser.py:232-271 | Without tie flags, merging only sorts: the output is a permutation of the input. |
| Ties.UntiedKept | apps/omr-service/src/services/musicxml_parser.py:267-271 | A note with no tie flags reaches the output unchanged, whatever surrounds it. |
| Ties.MergedGrows | apps/omr-service/src/services/musicxml_parser.py:236-267 | Merged notes are never taken back. |
| Ties.MergeFoldSize | apps/omr-service/src/services/musicxml_parser.py:236-267 | Each note adds at most one merged or open note. |
| Ties.MergeTiesShorter | apps/omr-service/src/services/musicxml_parser.py:232-271 | Merging never lengthens the list. |
| Ties.MergeTieChains | apps/omr-service/src/services/musicxml_parser.py:232-271 | The loop over `merged` and `active`, then the sort, computes the specification. |
| Articulation.PhraseBreak | apps/omr-service/src/services/musicxml_parser.py:278-281 | Definition of `phrase_break_after`. The last note always ends a phrase, and a note whose successor starts no later than it ends never does. Its properties are `Recognize` and `PhraseBreakShortens`. |
| Articulation.ArticulationOf | apps/omr-service/src/services/musicxml_parser.py:283-294 | Tie exactly when `is_tie`. Otherwise staccato, then slur, then normal, each exactly under its condition. |
| Articulation.GateFactor | apps/omr-service/src/services/musicxml_parser.py:283-294 | The gate share is in (0, 1], and it is 1 exactly for a tie. |
| Articulation.RawGate | apps/omr-service/src/services/musicxml_parser.py:283-297 | Definition of the gate before the 0.01 floor. A tie sounds for its whole duration. Any other articulation sounds for strictly less of a positive duration, and no gate exceeds a non-negative duration. Its properties are `GateShares`, `GateBounds` and `PhraseBreakShortens`. |
| Articulation.Recognize | apps/omr-service/src/services/musicxml_parser.py:277-310 | Pitch, MIDI number, start, duration and measure are copied. The articulation is classified, and the phrase break is the last-note-or-gap rule. The gate is the articulation's share of the duration, times 0.85 at a phrase break unless it is a tie, and never below 0.01. |
| Articulation.RecognizeAll | apps/omr-service/src/services/musicxml_parser.py:274-312 | There is one recognized note per input note. `phraseBreakAfter` holds exactly for the last note or when the gap to the next start exceeds 1e-4. Each gate is the articulation's share of the duration, shortened at a phrase break and floored at 0.01. |
| Articulation.Successor | apps/omr-service/src/services/musicxml_parser.py:278 | The next note, which is absent exactly for the last one. |
| Articulation.GateShares | apps/omr-service/src/services/musicxml_parser.py:283-305 | For every duration d the gate is max(d, 0.01) for a tie. Without and with a phrase break it is max(0.50·d or 0.425·d, 0.01) for staccato, max(0.98·d or 0.833·d, 0.01) for slur, and max(0.92·d or 0.782·d, 0.01) for a normal note. |
| Articulation.GateBounds | apps/omr-service/src/services/musicxml_parser.py:283-305 | The gate is at least 0.01. A tie sounds for its whole duration, and any other note for less, unless the 0.01 floor applies. |
| Articulation.PhraseBreakShortens | apps/omr-service/src/services/musicxml_parser.py:296-297 | At a phrase break a note that is not a tie gets 0.85 of its gate. |
| Articulation.GateExamples | apps/omr-service/tests/test_musicxml_parser.py:39-43 | The expected gates 0.92, 0.782, 0.98, 0.425, and 3.0 for a three-beat tie. |
| Playback.GroupKeys | apps/omr-service/src/services/musicxml_parser.py:369-371 | The grouped dict's keys are distinct, and they are exactly the (startBeat, sourceMeasure) pairs of the notes. |
| Playback.Members | apps/omr-service/src/services/musicxml_parser.py:371 | A group holds exactly the notes with its key, and it is non-empty for a key that occurs. |
| Playback.MaxDuration | apps/omr-service/src/services/musicxml_parser.py:379 | The largest duration in the group, attained by one of its notes. |
| Playback.MaxGate | apps/omr-service/src/services/musicxml_parser.py:380 | The largest gate in the group, attained by one of its notes. |
| Playback.PitchesOf | apps/omr-service/src/services/musicxml_parser.py:381 | The pitches, in list order. |
| Playback.MidisOf | apps/omr-service/src/services/musicxml_parser.py:382 | The MIDI numbers, in list order. |
| Playback.MidisAscending | apps/omr-service/src/services/musicxml_parser.py:375 | Notes sorted by `midi` have ascending MIDI numbers. |
| Playback.MakeEvent | apps/omr-service/src/services/musicxml_parser.py:376-387 | The event sits at its key's onset, with the given hand, staff and voice. |
| Playback.MakeEventPitches | apps/omr-service/src/services/musicxml_parser.py:375-382 | `midis` is ascending, and `pitches` lines up with it at the same length, read off one permutation of the group. |
| Playback.MakeEventSpan | apps/omr-service/src/services/musicxml_parser.py:379-380 | The event's duration and gate are the group maxima. |
| Playback.ToPlaybackEvents | apps/omr-service/src/services/musicxml_parser.py:362-389 | One event per distinct (startBeat, sourceMeasure). |
| Playback.EventAtKey | apps/omr-service/src/services/musicxml_parser.py:374-378 | The i-th event sits at the i-th key in sorted order. |
| Playback.PlaybackEventsOrdered | apps/omr-service/src/services/musicxml_parser.py:374 | Events strictly ascend by (start, measure), so no onset has two events. |
| Playback.NoteHasEvent | apps/omr-service/src/services/musicxml_parser.py:369-376 | Every note's onset has an event. |
| Playback.EventHasNote | apps/omr-service/src/services/musicxml_parser.py:369-376 | Every event's onset is some note's. |
| Playback.PlaybackEventMembers | apps/omr-service/src/services/musicxml_parser.py:369-387 | Each event is built from exactly the notes of its onset. |
| Playback.EventsLabelled | apps/omr-service/src/services/musicxml_parser.py:383-385 | Every event carries the hand, staff and voice it was called with. |
| Playback.GroupMapSpec | apps/omr-service/src/services/musicxml_parser.py:369-371 | The dict's keys are the group keys, and each holds its group's members in input order. |
| Playback.EventOfGroup | apps/omr-service/src/services/musicxml_parser.py:374-388 | The second loop's event for the j-th sorted key is the j-th event of the specification. |
| Playback.GroupNotes | apps/omr-service/src/services/musicxml_parser.py:369-371 | The `setdefault` loop builds the grouped dict and its key order. |
| Playback.GroupPlaybackEvents | apps/omr-service/src/services/musicxml_parser.py:362-389 | The two loops compute the specification's events. |
| Playback.EventOrder | apps/omr-service/src/services/musicxml_parser.py:571-578 | Definition of the final sort key. It starts with the onset, then 0 exactly for the right hand and 1 for the left, then the measure, then the first MIDI number when there is one. Its properties are `SortEvents` and `Parser.ResponseEventsOrdered`. |
| Playback.SortEvents | apps/omr-service/src/services/musicxml_parser.py:571-578 | The combined list is a permutation sorted by onset. It is ordered by the whole key (start, hand, measure, first MIDI number or -1). At equal onsets the right hand comes first, and within a hand the measures ascend. |
| Parser.SelectVoices | apps/omr-service/src/services/musicxml_parser.py:481-511 | Definition of the voice choice. The right hand is missing exactly for empty statistics. A chosen left hand is on staff 2. The missing-left warning goes out exactly when there is no left hand, and there are one to four warnings, since the fallback and the staff-1 multi-voice warning exclude each other. Its properties are the `Selection...` rows below. |
| Parser.SelectionHands | apps/omr-service/src/services/musicxml_parser.py:481-490 | The right hand is missing only for empty statistics. It is a recorded voice, on staff 1 whenever staff 1 has one. The left hand is a recorded voice on staff 2, missing exactly when staff 2 has none. |
| Parser.SelectionClean | apps/omr-service/src/services/musicxml_parser.py:481-511 | The selection reports neither the chord warning nor the tempo fallback. |
| Parser.StaffEmpty | apps/omr-service/src/services/musicxml_parser.py:225-229 | The in-staff choice is `None` exactly when the staff has no entry. |
| Parser.SelectionFallback | apps/omr-service/src/services/musicxml_parser.py:481-488 | The fallback warning goes out exactly when there are voices but none on staff 1. |
| Parser.SelectionMultiVoice | apps/omr-service/src/services/musicxml_parser.py:491-509 | A multi-voice warning goes out for a hand exactly when that hand was chosen and its staff holds two or more voices. |
| Parser.SelectionLeftMissing | apps/omr-service/src/services/musicxml_parser.py:502-511 | The missing-left warning goes out exactly when no left hand was chosen. There are one to four selection warnings: the fallback warning is only sent when staff 1 has no voice, so the staff-1 multi-voice warning cannot join it. |
| Parser.ReportsClean | apps/omr-service/src/services/musicxml_parser.py:494-511 | For any selection, the hand reports never hold the chord or tempo warning. |
| Parser.ReportsFallback | apps/omr-service/src/services/musicxml_parser.py:484-488 | The fallback message is present exactly when the fallback was taken and found a voice. |
| Parser.ReportsMultiVoice | apps/omr-service/src/services/musicxml_parser.py:494-509 | A multi-voice message is present exactly when its hand was chosen and its staff has several voices. |
| Parser.ReportsLeftMissing | apps/omr-service/src/services/musicxml_parser.py:502-511 | The missing-left message is present exactly when the left hand is absent. There are one to five messages, and at most four unless the fallback and the staff-1 multi-voice flag are both set. |
| Parser.OfVoice | apps/omr-service/src/services/musicxml_parser.py:513-522 | A hand's events are exactly the timeline events of its voice. |
| Parser.TimelineOrder | apps/omr-service/src/services/musicxml_parser.py:524-525 | Definition of the hand timeline's sort key. It is the onset, then the measure, then the MIDI number. A missing MIDI number and a MIDI number of 0 both sort as -1. Its property is `HandTimelineSpec`. |
| Parser.HandTimelineSpec | apps/omr-service/src/services/musicxml_parser.py:513-525 | A hand's timeline is a sorted permutation of its voice's events, and it is empty without a voice. |
| Parser.Finish | apps/omr-service/src/services/musicxml_parser.py:547-590 | Definition of the response after rendering. The engine is `audiveris` and the input type and time signature are passed on. The tempo is the score's, with the warnings unchanged, or else 120 with the tempo fallback warning appended. There are no more notes than melody render notes. Its properties are `FinishTempo` and `MelodyLoops`. |
| Parser.Assemble | apps/omr-service/src/services/musicxml_parser.py:481-590 | Definition of everything after the measure loop. The engine is `audiveris` and the input type and time signature are passed on. There are no more notes than timeline events. Its properties are the `Response...` rows, `SilentScore` and `BackupForwardResponse`. |
| Parser.ParseScore | apps/omr-service/src/services/musicxml_parser.py:395-397 | It raises "No part found" exactly for a document without parts. Otherwise it reports engine `audiveris` and the input type. |
| Parser.RenderWarnings | apps/omr-service/src/services/musicxml_parser.py:527-545 | The three render calls add the chord warning once, exactly when the right hand's timeline has a pitched chord member. |
| Parser.FinishTempo | apps/omr-service/src/services/musicxml_parser.py:580-582 | The tempo is the score's, or 120 with the fallback warning appended. |
| Parser.ResponseWarningList | apps/omr-service/src/services/musicxml_parser.py:481-589 | The response's warnings are the selection's, then the chord warning if any, then the tempo fallback if any. |
| Parser.ResponseChordWarningOnce | apps/omr-service/src/services/musicxml_parser.py:527-545 | The chord warning occurs at most once in the response. |
| Parser.ResponseChordWarning | apps/omr-service/src/services/musicxml_parser.py:527-545 | The chord warning occurs exactly when the right hand's timeline has a pitched chord member. |
| Parser.ResponseTempoFallback | apps/omr-service/src/services/musicxml_parser.py:580-582 | The tempo fallback is reported exactly when the score has no tempo. |
| Parser.ResponseTempo | apps/omr-service/src/services/musicxml_parser.py:580-589 | Without a tempo the response's tempo is 120 and the fallback warning comes last. With one, it is kept. |
| Parser.ResponseSelectionFirst | apps/omr-service/src/services/musicxml_parser.py:481-511 | The selection warnings open the response's warning list. |
| Parser.HandEventsLabelled | apps/omr-service/src/services/musicxml_parser.py:552-569 | A hand's events exist only when it has a voice, and they carry that hand, staff and voice. |
| Parser.ResponseEventList | apps/omr-service/src/services/musicxml_parser.py:551-578 | The response's events are the two hands' events, sorted. |
| Parser.ResponseRightLabelled | apps/omr-service/src/services/musicxml_parser.py:552-560 | Right-hand events carry the right voice's staff and voice. |
| Parser.ResponseLeftLabelled | apps/omr-service/src/services/musicxml_parser.py:561-569 | Left-hand events carry staff 2 and the left voice. |
| Parser.HandsLabelled | apps/omr-service/src/services/musicxml_parser.py:551-578 | In any arrangement of the two hands' events, a right-hand event carries the right voice's staff and voice, and a left-hand event the left voice's. |
| Parser.ResponseEventsOrdered | apps/omr-service/src/services/musicxml_parser.py:571-578 | The response's events are ordered by onset, right hand before left at the same onset. |
| Parser.SilentScore | apps/omr-service/src/services/musicxml_parser.py:481-569 | With no pitched notes there are no notes and no events, and the left hand is reported missing. |
| Parser.RenderHandsLoops | apps/omr-service/src/services/musicxml_parser.py:527-545 | The three render loops compute the specification. |
| Parser.HandEventsLoops | apps/omr-service/src/services/musicxml_parser.py:548-569 | One hand's merge and grouping loops compute its events. |
| Parser.PlaybackLoops | apps/omr-service/src/services/musicxml_parser.py:551-578 | Both hands' events, sorted together. |
| Parser.MelodyLoops | apps/omr-service/src/services/musicxml_parser.py:547 | The response's notes are the melody, tie-merged and recognized. |
| Parser.TempoDefault | apps/omr-service/src/services/musicxml_parser.py:580-582 | A missing tempo becomes 120 and the fallback warning is appended. |
| Parser.AssembleLoops | apps/omr-service/src/services/musicxml_parser.py:481-590 | Everything after the measure loop computes the specified response. |
| Parser.ParseMusicXml | apps/omr-service/src/services/musicxml_parser.py:392-590 | `parse_musicxml` on a decoded document computes the specification, raising for no part. |
| Parser.BackupForwardSelection | apps/omr-service/src/services/musicxml_parser.py:481-490 | With staff 1 voice 1 and staff 2 voice 2 recorded, the right hand is staff 1 voice 1. |
| Parser.BackupForwardHand | apps/omr-service/src/services/musicxml_parser.py:513-524 | The right hand's timeline of the backup/forward measure is C5 then D5. |
| Parser.TwoNoteMelody | apps/omr-service/src/services/musicxml_parser.py:527-547 | Two untied single notes, the first starting earlier, become two response notes with their pitches and onsets, in order. |
| Parser.BackupForwardResponse | apps/omr-service/tests/test_musicxml_parser.py:77-113 | The response's notes for the backup/forward measure are C5 at beat 0 and D5 at beat 3, as the test asserts. |
| Catalog.NormalizeInstrument | apps/omr-service/src/services/catalog_service.py:125-137 | `None` for an absent or blank value. The stripped value when it is supported. Otherwise a validation error naming the stripped value. |
| Catalog.NormalizeBlank | apps/omr-service/src/services/catalog_service.py:127-131 | A given value means no change exactly when it is whitespace only. |
| Catalog.NormalizeIdempotent | apps/omr-service/src/services/catalog_service.py:126-137 | Normalising a normalised instrument gives it back. |
| Catalog.ValidateUpdate | apps/omr-service/src/services/catalog_service.py:289-303 | The melody error comes first, then the left-hand error. An accepted update carries the normalised instruments and a non-empty stripped title when one was given. |
| Catalog.ValidateEmptyTitle | apps/omr-service/src/services/catalog_service.py:293-294 | "Title cannot be empty" is raised exactly when both instruments pass and the title is whitespace only. |
| Catalog.ValidateNothingToUpdate | apps/omr-service/src/services/catalog_service.py:296-303 | The update is refused as empty exactly when there is no title and both instruments normalise to `None`. |
| Catalog.ValidateAccepted | apps/omr-service/src/services/catalog_service.py:296-303 | An accepted update supplies a field, and every instrument it names is supported. |
| Catalog.SummaryFromRaw | apps/omr-service/src/services/catalog_service.py:116-123 | A summary read from storage only names supported instruments. |
| Catalog.SummaryFromRawKeeps | apps/omr-service/src/services/catalog_service.py:116-123 | Only an unsupported instrument changes, to `piano`, and a summary reads back as itself. |
| Catalog.FindEntry | apps/omr-service/src/services/catalog_service.py:110-114 | The first position whose id matches, or none exactly when no entry matches. |
| Catalog.EntryById | apps/omr-service/src/services/catalog_service.py:110-114 | The linear search returns that index with `entries[index]`, or `NotFound`. |
| Catalog.Apply | apps/omr-service/src/services/catalog_service.py:308-314 | Definition of the in-place update. Each supplied field takes the new value and each absent one keeps the summary's. `updatedAt` becomes the given time, and nothing else changes. Its properties are `ApplyOnlySupplied` and `UpdateKeepsPosition`. |
| Catalog.ApplyOnlySupplied | apps/omr-service/src/services/catalog_service.py:307-314 | Only the supplied fields and `updatedAt` change, and the instruments stay supported. |
| Catalog.UpdateKeepsPosition | apps/omr-service/src/services/catalog_service.py:306-316 | After the write-back the entry is still the first with its id, at the same index. |
| Catalog.FindEntryFirst | apps/omr-service/src/services/catalog_service.py:110-113 | The search stops at the first matching position. |
| Catalog.CatalogIndex.constructor | apps/omr-service/src/services/catalog_service.py:66-70 | A fresh catalog has no entries. |
| Catalog.CatalogIndex.UpdateEntry | apps/omr-service/src/services/catalog_service.py:281-320 | Validation errors come first and change nothing, and then `NotFound` changes nothing. Otherwise the entry at the found index is replaced by its summary with the supplied fields and the new `updatedAt`, and no other entry changes. |
| Catalog.CatalogIndex.ResetCatalog | apps/omr-service/src/services/catalog_service.py:340-357 | Any token but `WIPE_CATALOG` is refused with the index unchanged. Otherwise it returns the old entry count and leaves no entries. |
| Catalog.FallbackPlaybackEvents | apps/omr-service/src/services/catalog_service.py:155-178 | One event per distinct (startBeat, sourceMeasure), every one on the right hand, staff 1, voice 1. |
| Catalog.FallbackEvents | apps/omr-service/src/services/catalog_service.py:156-178 | The `setdefault` and event loops compute the fallback events. |
| Catalog.FallbackOrdered | apps/omr-service/src/services/catalog_service.py:157-163 | The groups come in strictly increasing (start, measure) order. |
| Catalog.FallbackNoteHasEvent | apps/omr-service/src/services/catalog_service.py:157-163 | Every note has its onset's event. |
| Catalog.FallbackEventHasNote | apps/omr-service/src/services/catalog_service.py:157-163 | Every event is some note's onset. |
| Catalog.FallbackEventPitches | apps/omr-service/src/services/catalog_service.py:164-171 | `midis` is ascending, with `pitches` co-indexed at the same length, read off the onset's notes. |
| Catalog.FallbackEventSpan | apps/omr-service/src/services/catalog_service.py:168-169 | Duration and gate are the group maxima. |
| Catalog.StoredEvents | apps/omr-service/src/services/catalog_service.py:190-193 | Stored events are kept. Without them the fallback events, all right-hand, are used. |
| Catalog.LegacyRecordEvents | apps/omr-service/src/services/catalog_service.py:192-193 | A record with notes but no events gets at least one event, all on the right hand, staff 1, voice 1. |
| Player.OfHand | apps/web/src/services/player.ts:34 | The filter keeps exactly the events of that hand. |
| Player.FilterPlaybackEvents | apps/web/src/services/player.ts:27-35 | `'both'` returns the input unchanged. A hand mode returns exactly the input's events of that hand. |
| Player.OfHandAppend | apps/web/src/services/player.ts:34 | Filtering distributes over concatenation, so relative order is kept. |
| Player.OfHandKeepsAll | apps/web/src/services/player.ts:34 | The filter returns its input exactly when every event is of that hand. |
| Player.HandsPartition | apps/web/src/services/player.ts:27-35 | The right and left results together are the input, counted with multiplicity. |
| Player.FilterIdempotent | apps/web/src/services/player.ts:27-35 | Filtering twice by one mode is filtering once. |
| Player.ResolveHandInstrument | apps/web/src/services/player.ts:78-84 | The left-hand instrument exactly for the left hand, and the melody instrument exactly for the right, when the two differ. |
| Player.RequiredInstruments | apps/web/src/services/player.ts:100-104 | A one-hand mode loads only that hand's instrument. |

## Left out

- XML and zip decoding (`_read_mxl_root`, `ET.parse`, `_find_first`, `_find_children`, `_strip_ns`) is library work. The model starts from the decoded document in `Document`.
- `_as_number` and the digit check on `<divisions>` are numeric text parsing. Durations, divisions and tempos arrive already parsed. A duration for which `_as_number` returns `None` (absent, empty, or not digits once one `.` and one `-` are removed) is 0.0. A tempo for which it returns `None` is absent.
- `_as_number` crashing is not modelled. The text can pass its digit check and still be rejected by `float()` with `ValueError`, as `1-2` or `4-` are. `parse_musicxml` then raises for a `<duration>` (`musicxml_parser.py:131-132`, `:444`, `:449`) or a per-minute or sound tempo (`:433`, `:438`). The model has no such inputs, because every duration and tempo is a number or absent.
- `<divisions>` text that `str.isdigit()` accepts but `int()` rejects, such as a superscript digit (`musicxml_parser.py:419-420`), raises `ValueError`. That error path is not modelled either, because divisions arrive as integers.
- `int(...)` on a non-numeric `<alter>`, `<octave>` or measure `number` raises `ValueError`. The model takes these as integers, so that error path is not modelled.
- A `<step>` outside A to G raises `KeyError` in `SEMITONES[step]`. `Step` has only the seven letters, so that error path is not modelled.
- `round(x, 4)` on beats, durations and gates is left out. Beats are exact `real` numbers rather than floats.
- Voices.AvgPitch: `avg_pitch` (`musicxml_parser.py:70-72`) is a float division, and the model divides exactly in `real`. Two averages that differ in `real` but round to the same float (only with very large note counts) could rank in a different order.
- Catalog: `SUPPORTED_INSTRUMENTS` is imported from `apps/omr-service/src/models.py` (`catalog_service.py:18`), but its definition is not part of this model. `Catalog.SupportedInstruments` takes the seven ids, in order, from the keys of `SOUND_FONT_PROGRAMS` in `player.ts:17-25`. `SummaryFromRaw`, `NormalizeInstrument` and the error text that joins the list depend on this choice.
- Element texts (staff, voice, `<beats>`, `<beat-type>`) are taken as `_text` returns them, already stripped. Whitespace handling inside the XML decoder is not modelled.
- Warnings are constructors of `Diagnostics.Warning`. Their message texts are written out in `Diagnostics.Message`, but no property is stated about the texts.
- Ordering.SortBy: stability is not stated. Every sort the properties rely on is either proved strict (`SortDistinctStrict`) or only needs order and permutation.
- Catalog: `_read_index`, `_write_index`, the atomic writes, `_sync_record_summary`, hashing, the clock (`now` is a parameter), and the file and directory removal in `reset_catalog` and `delete_entry` are file I/O. The index is the in-memory `CatalogIndex.entries`, and `CatalogStorageError` is not modelled.
- Catalog: `create_entry`, `touch_entry`, `delete_entry`, `list_entries` and `find_by_hash` are not part of this model.
- Catalog.FindEntry: `item.get("id")` on an entry without an id is not modelled, because every `Entry` has an id.
- Player.FilterPlaybackEvents: the default argument `mode = 'both'` (`player.ts:29`) is not modelled. The mode is always passed; calling without it is the `Both` case.
- Player: `playScore`, `stopScore`, `loadInstrument` and `loadInstrumentWithFallback` are asynchronous audio work. Only the instrument set `playScore` asks for is stated (`RequiredInstruments`).
- The recognition pipeline, the HTTP layer, image preprocessing and the web client's network calls are not part of this model.
