/**
 * `_build_render_notes`: one voice's timeline becomes render notes, with the slur depth
 * carried across events and the chord warning appended at most once.
 */
module Render {
  import opened Wrappers
  import opened Timeline
  import opened Diagnostics

  /** `RenderNote`: a pitched note ready for tie merging. */
  datatype RenderNote = RenderNote(
    pitch: string,
    midi: int,
    startBeat: real,
    durationBeat: real,
    sourceMeasure: int,
    staff: string,
    voice: string,
    tieStart: bool,
    tieStop: bool,
    isTie: bool,
    inSlur: bool,
    staccato: bool)

  /** The loop's state: notes so far, slur depth, whether the chord warning went out, warnings. */
  datatype RenderAcc = RenderAcc(notes: seq<RenderNote>, depth: nat, sent: bool, warnings: seq<Warning>)

  /** `max(0, slur_depth + slur_starts - slur_stops)`. */
  function NextDepth(depth: nat, e: TimelineNote): nat
  {
    var d := depth + e.slurStarts - e.slurStops;
    if d < 0 then 0 else d
  }

  /** The events that become render notes: pitched, and not a chord member unless chords are kept. */
  predicate Renders(e: TimelineNote, includeChords: bool)
  {
    !e.isRest && e.pitch.Some? && e.midi.Some? && (includeChords || !e.isChord)
  }

  /** A pitched chord member: what makes the chord warning go out when chords are dropped. */
  predicate PitchedChord(e: TimelineNote)
  {
    !e.isRest && e.pitch.Some? && e.midi.Some? && e.isChord
  }

  function ToRender(e: TimelineNote, inSlur: bool): RenderNote
    requires e.pitch.Some? && e.midi.Some?
  {
    RenderNote(e.pitch.value, e.midi.value, e.startBeat, e.durationBeat, e.sourceMeasure, e.staff, e.voice,
               e.tieStart, e.tieStop, e.tieStart || e.tieStop, inSlur, e.staccato)
  }

  /**
   * One iteration of the loop over the timeline: a render note is appended exactly when the
   * event renders, and the chord warning is added at most once.
   */
  function RenderStep(acc: RenderAcc, e: TimelineNote, includeChords: bool): (r: RenderAcc)
    ensures |acc.notes| <= |r.notes| <= |acc.notes| + 1 && r.notes[..|acc.notes|] == acc.notes
    ensures |r.notes| == |acc.notes| + 1 <==> Renders(e, includeChords)
    ensures r.warnings == acc.warnings || (!acc.sent && r.sent && r.warnings == acc.warnings + [ChordNotesExcluded])
    ensures acc.sent ==> r.sent && r.warnings == acc.warnings
  {
    if e.isRest then acc.(depth := NextDepth(acc.depth, e))
    else if e.pitch.None? || e.midi.None? then acc
    else if e.isChord && !includeChords then
      if acc.sent then acc else acc.(warnings := acc.warnings + [ChordNotesExcluded], sent := true)
    else
      var inSlur := acc.depth > 0 || e.slurStarts > 0 || e.slurStops > 0;
      acc.(notes := acc.notes + [ToRender(e, inSlur)], depth := NextDepth(acc.depth, e))
  }

  function RenderFold(acc: RenderAcc, es: seq<TimelineNote>, includeChords: bool): (r: RenderAcc)
    ensures |acc.notes| <= |r.notes| <= |acc.notes| + |es| && r.notes[..|acc.notes|] == acc.notes
    ensures acc.sent ==> r.sent && r.warnings == acc.warnings
    decreases |es|
  {
    if es == [] then acc else RenderFold(RenderStep(acc, es[0], includeChords), es[1..], includeChords)
  }

  /**
   * The whole of `_build_render_notes`, by its inputs: at most one render note per event, and
   * once the chord warning has gone out the warnings pass through.
   */
  function BuildRender(es: seq<TimelineNote>, includeChords: bool, sent: bool, warnings: seq<Warning>): (r: RenderAcc)
    ensures |r.notes| <= |es|
    ensures sent ==> r.sent && r.warnings == warnings
  {
    RenderFold(RenderAcc([], 0, sent, warnings), es, includeChords)
  }

  // ---------------------------------------------------------------------------------------
  // Reference definitions

  /** The events that render, in timeline order. */
  function Rendered(es: seq<TimelineNote>, includeChords: bool): (r: seq<TimelineNote>)
    ensures forall i :: 0 <= i < |r| ==> Renders(r[i], includeChords) && r[i] in es
  {
    if es == [] then []
    else if Renders(es[0], includeChords) then [es[0]] + Rendered(es[1..], includeChords)
    else Rendered(es[1..], includeChords)
  }

  predicate HasPitchedChord(es: seq<TimelineNote>)
  {
    exists i :: 0 <= i < |es| && PitchedChord(es[i])
  }

  /** A render note copies its event's fields; a note that carries a slur mark is in a slur. */
  predicate Corresponds(r: RenderNote, e: TimelineNote)
  {
    && e.pitch == Some(r.pitch) && e.midi == Some(r.midi)
    && r.startBeat == e.startBeat && r.durationBeat == e.durationBeat
    && r.sourceMeasure == e.sourceMeasure && r.staff == e.staff && r.voice == e.voice
    && r.tieStart == e.tieStart && r.tieStop == e.tieStop && r.isTie == (e.tieStart || e.tieStop)
    && r.staccato == e.staccato
    && (e.slurStarts > 0 || e.slurStops > 0 ==> r.inSlur)
  }

  predicate Aligned(rs: seq<RenderNote>, es: seq<TimelineNote>)
  {
    |rs| == |es| && forall i :: 0 <= i < |rs| ==> Corresponds(rs[i], es[i])
  }

  /** Open slurs after `es`, starting from `d`: rests and rendered notes move it, nothing else does. */
  function Depth(d: nat, es: seq<TimelineNote>, includeChords: bool): nat
    decreases |es|
  {
    if es == [] then d
    else if es[0].isRest || Renders(es[0], includeChords) then Depth(NextDepth(d, es[0]), es[1..], includeChords)
    else Depth(d, es[1..], includeChords)
  }

  // ---------------------------------------------------------------------------------------
  // Properties of the fold

  lemma AlignedCons(r: RenderNote, rs: seq<RenderNote>, e: TimelineNote, es: seq<TimelineNote>)
    requires Corresponds(r, e) && Aligned(rs, es)
    ensures Aligned([r] + rs, [e] + es)
  {
    assert forall i :: 1 <= i < |rs| + 1 ==> ([r] + rs)[i] == rs[i - 1] && ([e] + es)[i] == es[i - 1];
  }

  /** A rendering event adds exactly its own copy; any other event adds nothing. */
  lemma RenderStepNotes(acc: RenderAcc, e: TimelineNote, includeChords: bool)
    ensures var next := RenderStep(acc, e, includeChords);
      && (Renders(e, includeChords) ==>
            |next.notes| == |acc.notes| + 1 && next.notes[..|acc.notes|] == acc.notes
            && Corresponds(next.notes[|acc.notes|], e))
      && (!Renders(e, includeChords) ==> next.notes == acc.notes)
  {
  }

  /**
   * The fold emits exactly one note per rendering event, in order, each a copy of its event;
   * notes already there stay as they are.
   */
  lemma {:induction false} RenderFoldNotes(acc: RenderAcc, es: seq<TimelineNote>, includeChords: bool)
    ensures var r := RenderFold(acc, es, includeChords);
      && |r.notes| >= |acc.notes|
      && r.notes[..|acc.notes|] == acc.notes
      && Aligned(r.notes[|acc.notes|..], Rendered(es, includeChords))
    decreases |es|
  {
    if es != [] {
      var next := RenderStep(acc, es[0], includeChords);
      RenderStepNotes(acc, es[0], includeChords);
      RenderFoldNotes(next, es[1..], includeChords);
      if Renders(es[0], includeChords) {
        AlignedShift(acc.notes, next.notes, RenderFold(next, es[1..], includeChords).notes,
                     es[0], Rendered(es[1..], includeChords));
      }
    }
  }

  /** One more aligned note in front: the step's note followed by the rest of the fold's. */
  lemma AlignedShift(before: seq<RenderNote>, step: seq<RenderNote>, after: seq<RenderNote>,
                     e: TimelineNote, rest: seq<TimelineNote>)
    requires |step| == |before| + 1 && step[..|before|] == before && Corresponds(step[|before|], e)
    requires |after| >= |step| && after[..|step|] == step && Aligned(after[|step|..], rest)
    ensures after[..|before|] == before && Aligned(after[|before|..], [e] + rest)
  {
    var n := |before|;
    assert after[..n] == after[..n + 1][..n];
    assert after[n..] == [after[n]] + after[n + 1..];
    assert after[n] == step[n];
    AlignedCons(after[n], after[n + 1..], e, rest);
  }

  /**
   * The chord warning is appended at most once: exactly when it had not been sent, chords
   * are dropped, and a pitched chord member occurs; the flag records that it went out.
   */
  lemma {:induction false} RenderFoldWarning(acc: RenderAcc, es: seq<TimelineNote>, includeChords: bool)
    ensures var r := RenderFold(acc, es, includeChords);
      var fires := !acc.sent && !includeChords && HasPitchedChord(es);
      && r.sent == (acc.sent || (!includeChords && HasPitchedChord(es)))
      && r.warnings == acc.warnings + (if fires then [ChordNotesExcluded] else [])
    decreases |es|
  {
    if es != [] {
      var next := RenderStep(acc, es[0], includeChords);
      RenderFoldWarning(next, es[1..], includeChords);
      assert HasPitchedChord(es) <==> PitchedChord(es[0]) || HasPitchedChord(es[1..]) by {
        if HasPitchedChord(es) && !PitchedChord(es[0]) {
          var i :| 0 <= i < |es| && PitchedChord(es[i]);
          assert es[1..][i - 1] == es[i];
        }
        if HasPitchedChord(es[1..]) {
          var i :| 0 <= i < |es[1..]| && PitchedChord(es[1..][i]);
          assert es[i + 1] == es[1..][i];
        }
      }
    }
  }

  /**
   * `in_slur` exactly: the note rendered from event `j` is in a slur if and only if slurs are
   * open before it or it carries a slur start or stop.
   */
  lemma {:induction false} InSlurExact(acc: RenderAcc, es: seq<TimelineNote>, includeChords: bool, j: nat)
    requires j < |es| && Renders(es[j], includeChords)
    ensures var r := RenderFold(acc, es, includeChords);
      var k := |acc.notes| + |Rendered(es[..j], includeChords)|;
      && k < |r.notes|
      && (r.notes[k].inSlur <==>
            Depth(acc.depth, es[..j], includeChords) > 0 || es[j].slurStarts > 0 || es[j].slurStops > 0)
    decreases |es|
  {
    if j == 0 {
      InSlurHead(acc, es, includeChords);
    } else {
      InSlurExact(RenderStep(acc, es[0], includeChords), es[1..], includeChords, j - 1);
      PrefixUnfold(acc, es, includeChords, j);
    }
  }

  /** The note the first event renders to is in a slur exactly when `in_slur` says so. */
  lemma InSlurHead(acc: RenderAcc, es: seq<TimelineNote>, includeChords: bool)
    requires |es| > 0 && Renders(es[0], includeChords)
    ensures var r := RenderFold(acc, es, includeChords);
      && |acc.notes| < |r.notes|
      && (r.notes[|acc.notes|].inSlur <==> acc.depth > 0 || es[0].slurStarts > 0 || es[0].slurStops > 0)
  {
    var next := RenderStep(acc, es[0], includeChords);
    RenderStepNotes(acc, es[0], includeChords);
    RenderFoldNotes(next, es[1..], includeChords);
    var r := RenderFold(next, es[1..], includeChords);
    assert r.notes[|acc.notes|] == r.notes[..|next.notes|][|acc.notes|];
  }

  /** Peeling the first event off a prefix of the timeline: note count and slur depth carry over. */
  lemma PrefixUnfold(acc: RenderAcc, es: seq<TimelineNote>, includeChords: bool, j: nat)
    requires 0 < j <= |es|
    ensures var next := RenderStep(acc, es[0], includeChords);
      && |acc.notes| + |Rendered(es[..j], includeChords)| == |next.notes| + |Rendered(es[1..][..j - 1], includeChords)|
      && Depth(acc.depth, es[..j], includeChords) == Depth(next.depth, es[1..][..j - 1], includeChords)
  {
    RenderStepNotes(acc, es[0], includeChords);
    assert es[..j][0] == es[0];
    assert es[..j][1..] == es[1..][..j - 1];
  }

  /** The depth the loop carries is the open-slur count, never below 0. */
  lemma {:induction false} RenderFoldDepth(acc: RenderAcc, es: seq<TimelineNote>, includeChords: bool)
    ensures RenderFold(acc, es, includeChords).depth == Depth(acc.depth, es, includeChords)
    decreases |es|
  {
    if es != [] {
      RenderFoldDepth(RenderStep(acc, es[0], includeChords), es[1..], includeChords);
    }
  }

  /** With no slur opened before or starting anywhere, no note is marked as slurred. */
  lemma {:induction false} NoSlurNoLegato(acc: RenderAcc, es: seq<TimelineNote>, includeChords: bool)
    requires acc.depth == 0
    requires forall i :: 0 <= i < |es| ==> es[i].slurStarts == 0 && es[i].slurStops == 0
    ensures var r := RenderFold(acc, es, includeChords);
      && r.depth == 0
      && forall i :: |acc.notes| <= i < |r.notes| ==> !r.notes[i].inSlur
    decreases |es|
  {
    if es != [] {
      var next := RenderStep(acc, es[0], includeChords);
      NoSlurNoLegato(next, es[1..], includeChords);
      RenderFoldNotes(next, es[1..], includeChords);
    }
  }

  /**
   * What one call of `_build_render_notes` returns: the notes are the rendering events in
   * order, without chord members when chords are dropped; the warning goes out once at most.
   */
  lemma BuildRenderSpec(es: seq<TimelineNote>, includeChords: bool, sent: bool, warnings: seq<Warning>)
    ensures var r := BuildRender(es, includeChords, sent, warnings);
      && Aligned(r.notes, Rendered(es, includeChords))
      && (!includeChords ==> forall i :: 0 <= i < |Rendered(es, includeChords)| ==> !Rendered(es, includeChords)[i].isChord)
      && r.sent == (sent || (!includeChords && HasPitchedChord(es)))
      && r.warnings == warnings + (if !sent && !includeChords && HasPitchedChord(es) then [ChordNotesExcluded] else [])
  {
    var acc := RenderAcc([], 0, sent, warnings);
    RenderFoldNotes(acc, es, includeChords);
    RenderFoldWarning(acc, es, includeChords);
    var r := BuildRender(es, includeChords, sent, warnings);
    assert r.notes[|acc.notes|..] == r.notes;
  }

  // ---------------------------------------------------------------------------------------
  // The loop itself

  /** `_build_render_notes`, returning the render notes, the updated flag and the warnings. */
  method BuildRenderNotes(timeline: seq<TimelineNote>, includeChords: bool, chordWarningSent: bool,
                          warnings: seq<Warning>)
    returns (renderNotes: seq<RenderNote>, sent: bool, warningsOut: seq<Warning>)
    ensures RenderAcc(renderNotes, BuildRender(timeline, includeChords, chordWarningSent, warnings).depth,
                      sent, warningsOut)
         == BuildRender(timeline, includeChords, chordWarningSent, warnings)
  {
    var slurDepth: nat := 0;
    renderNotes, sent, warningsOut := [], chordWarningSent, warnings;
    var i := 0;
    while i < |timeline|
      invariant 0 <= i <= |timeline|
      invariant RenderFold(RenderAcc(renderNotes, slurDepth, sent, warningsOut), timeline[i..], includeChords)
             == BuildRender(timeline, includeChords, chordWarningSent, warnings)
    {
      var event := timeline[i];
      assert timeline[i..][1..] == timeline[i + 1..];
      i := i + 1;
      if event.isRest {
        slurDepth := NextDepth(slurDepth, event);
        continue;
      }
      if event.pitch.None? || event.midi.None? {
        continue;
      }
      if event.isChord && !includeChords {
        if !sent {
          warningsOut := warningsOut + [ChordNotesExcluded];
          sent := true;
        }
        continue;
      }
      var inSlur := slurDepth > 0 || event.slurStarts > 0 || event.slurStops > 0;
      slurDepth := NextDepth(slurDepth, event);
      renderNotes := renderNotes + [ToRender(event, inSlur)];
    }
  }
}
