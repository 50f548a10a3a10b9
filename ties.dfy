/**
 * `_merge_ties`: notes tied over a chain of one pitch become one note. The `active` dict keyed
 * by MIDI number keeps insertion order, and re-assigning a key keeps its place; it is modelled
 * as a sequence of notes with pairwise distinct MIDI numbers.
 */
module Ties {
  import opened Wrappers
  import opened Ordering
  import opened Render

  datatype MergeState = MergeState(merged: seq<RenderNote>, active: seq<RenderNote>)

  /** The position of `midi` among the active notes, or -1 (`key in active`). */
  function FindActive(active: seq<RenderNote>, midi: int): (r: int)
    ensures -1 <= r < |active|
    ensures r >= 0 ==> active[r].midi == midi && forall i :: 0 <= i < r ==> active[i].midi != midi
    ensures r == -1 <==> forall i :: 0 <= i < |active| ==> active[i].midi != midi
  {
    if active == [] then -1
    else if active[0].midi == midi then 0
    else
      var k := FindActive(active[1..], midi);
      if k == -1 then -1 else k + 1
  }

  /** The first position holding `midi` is where `FindActive` stops. */
  lemma {:induction false} FindActiveAt(active: seq<RenderNote>, midi: int, k: nat)
    requires k < |active| && active[k].midi == midi
    requires forall i :: 0 <= i < k ==> active[i].midi != midi
    ensures FindActive(active, midi) == k
    decreases k
  {
    if k > 0 {
      FindActiveAt(active[1..], midi, k - 1);
    }
  }

  /** `del active[key]`. */
  function RemoveAt(s: seq<RenderNote>, k: nat): (r: seq<RenderNote>)
    requires k < |s|
    ensures |r| == |s| - 1
    ensures forall i :: 0 <= i < k ==> r[i] == s[i]
    ensures forall i :: k <= i < |r| ==> r[i] == s[i + 1]
  {
    s[..k] + s[k + 1..]
  }

  /** The stop note's duration, slur and staccato flags folded into the chain's base note. */
  function Absorb(base: RenderNote, note: RenderNote): RenderNote
  {
    base.(durationBeat := base.durationBeat + note.durationBeat,
          inSlur := base.inSlur || note.inSlur,
          staccato := base.staccato || note.staccato)
  }

  /** The copy a tie start puts in `active`: tie flags cleared, `is_tie` set. */
  function Opened(note: RenderNote): RenderNote
  {
    note.(tieStart := false, tieStop := false, isTie := true)
  }

  /** What `active` holds as a dictionary: one tie note per MIDI number. */
  predicate OpenNotes(active: seq<RenderNote>)
  {
    && (forall i, j :: 0 <= i < j < |active| ==> active[i].midi != active[j].midi)
    && (forall i :: 0 <= i < |active| ==> active[i].isTie)
  }

  /**
   * One iteration of the loop over the notes: `merged` only grows, by at most the one note,
   * no note is lost except by overwriting, and `active` stays a dictionary of tie notes.
   */
  function MergeStep(st: MergeState, note: RenderNote): (r: MergeState)
    ensures |st.merged| <= |r.merged| <= |st.merged| + 1 && r.merged[..|st.merged|] == st.merged
    ensures |st.merged| + |st.active| <= |r.merged| + |r.active| <= |st.merged| + |st.active| + 1
    ensures OpenNotes(st.active) ==> OpenNotes(r.active)
  {
    var k := FindActive(st.active, note.midi);
    if note.tieStop && k >= 0 then
      var base := Absorb(st.active[k], note);
      if note.tieStart then st.(active := st.active[k := base])
      else st.(merged := st.merged + [base], active := RemoveAt(st.active, k))
    else if note.tieStart then
      if k >= 0 then st.(active := st.active[k := Opened(note)])
      else st.(active := st.active + [Opened(note)])
    else st.(merged := st.merged + [note])
  }

  /** The loop over all the notes keeps `active` a dictionary of tie notes and loses no entry count. */
  function MergeFold(st: MergeState, notes: seq<RenderNote>): (r: MergeState)
    ensures |r.merged| + |r.active| >= |st.merged| + |st.active|
    ensures OpenNotes(st.active) ==> OpenNotes(r.active)
    decreases |notes|
  {
    if notes == [] then st else MergeFold(MergeStep(st, notes[0]), notes[1..])
  }

  /** The sort key `(start_beat, source_measure, midi)`. */
  function MergeKey(n: RenderNote): SortKey
  {
    SortKey(n.startBeat, [n.sourceMeasure, n.midi])
  }

  /**
   * `_merge_ties`: the merged notes followed by the still-open ones, sorted by start, measure
   * and pitch.
   */
  function MergeTies(notes: seq<RenderNote>): (r: seq<RenderNote>)
    ensures var st := MergeFold(MergeState([], []), notes);
      multiset(r) == multiset(st.merged + st.active) && SortedBy(r, MergeKey)
  {
    var st := MergeFold(MergeState([], []), notes);
    SortBy(st.merged + st.active, MergeKey)
  }

  // ---------------------------------------------------------------------------------------
  // Reference definitions for a chain

  /** The middle notes of a chain: each stops and restarts a tie on `midi`. */
  predicate Continues(mids: seq<RenderNote>, midi: int)
  {
    forall i :: 0 <= i < |mids| ==> mids[i].tieStop && mids[i].tieStart && mids[i].midi == midi
  }

  function TotalDuration(ns: seq<RenderNote>): real
  {
    if ns == [] then 0.0 else ns[0].durationBeat + TotalDuration(ns[1..])
  }

  predicate AnySlur(ns: seq<RenderNote>)
  {
    exists i :: 0 <= i < |ns| && ns[i].inSlur
  }

  predicate AnyStaccato(ns: seq<RenderNote>)
  {
    exists i :: 0 <= i < |ns| && ns[i].staccato
  }

  /** The note a whole chain `chain` becomes: its first note, lasting the whole chain. */
  function ChainNote(chain: seq<RenderNote>): RenderNote
    requires chain != []
  {
    chain[0].(tieStart := false, tieStop := false, isTie := true,
              durationBeat := TotalDuration(chain), inSlur := AnySlur(chain), staccato := AnyStaccato(chain))
  }

  // ---------------------------------------------------------------------------------------
  // Properties

  /** The middle of a chain keeps extending the same active entry, in place. */
  lemma MiddleSteps(st: MergeState, k: nat, chain: seq<RenderNote>, mids: seq<RenderNote>)
    requires chain != [] && k < |st.active| && Continues(mids, chain[0].midi)
    requires FindActive(st.active, chain[0].midi) == k
    requires st.active[k] == ChainNote(chain)
    ensures MergeFold(st, mids) == st.(active := st.active[k := ChainNote(chain + mids)])
  {
    AbsorbSteps(st, k, chain[0].midi, mids);
    AbsorbChain(chain, mids);
  }

  /** The stop notes folded one after another into `base`. */
  function AbsorbAll(base: RenderNote, notes: seq<RenderNote>): RenderNote
    decreases |notes|
  {
    if notes == [] then base else AbsorbAll(Absorb(base, notes[0]), notes[1..])
  }

  /** Stop-and-starts on the pitch of the `k`-th active note fold into that note, in place. */
  lemma {:induction false} AbsorbSteps(st: MergeState, k: nat, midi: int, mids: seq<RenderNote>)
    requires k < |st.active| && Continues(mids, midi)
    requires FindActive(st.active, midi) == k
    ensures MergeFold(st, mids) == st.(active := st.active[k := AbsorbAll(st.active[k], mids)])
    decreases |mids|
  {
    if mids == [] {
      assert st.active[k := st.active[k]] == st.active;
    } else {
      var x := Absorb(st.active[k], mids[0]);
      var next := st.(active := st.active[k := x]);
      assert MergeStep(st, mids[0]) == next;
      FindActiveUpdate(st.active, k, midi, x);
      AbsorbSteps(next, k, midi, mids[1..]);
      UpdateTwice(st.active, k, x, AbsorbAll(x, mids[1..]));
    }
  }

  /** Folding the rest of a chain into the note of its beginning gives the whole chain's note. */
  lemma {:induction false} AbsorbChain(chain: seq<RenderNote>, mids: seq<RenderNote>)
    requires chain != []
    ensures AbsorbAll(ChainNote(chain), mids) == ChainNote(chain + mids)
    decreases |mids|
  {
    if mids == [] {
      assert chain + mids == chain;
    } else {
      ChainExtend(chain, mids[0]);
      AbsorbChain(chain + [mids[0]], mids[1..]);
      assert chain + [mids[0]] + mids[1..] == chain + mids;
    }
  }

  lemma UpdateTwice(s: seq<RenderNote>, k: nat, a: RenderNote, b: RenderNote)
    requires k < |s|
    ensures s[k := a][k := b] == s[k := b]
  {
  }

  /** Overwriting the found note with one of the same pitch leaves it where it is found. */
  lemma FindActiveUpdate(active: seq<RenderNote>, k: nat, midi: int, x: RenderNote)
    requires k < |active| && FindActive(active, midi) == k && x.midi == midi
    ensures FindActive(active[k := x], midi) == k
  {
    FindActiveAt(active[k := x], midi, k);
  }

  /** Absorbing one more note into a chain's note gives the longer chain's note. */
  lemma ChainExtend(chain: seq<RenderNote>, m: RenderNote)
    requires chain != []
    ensures Absorb(ChainNote(chain), m) == ChainNote(chain + [m])
  {
    var c := chain + [m];
    TotalDurationAppend(chain, m);
    assert AnySlur(c) <==> AnySlur(chain) || m.inSlur by {
      if AnySlur(c) && !m.inSlur {
        var i :| 0 <= i < |c| && c[i].inSlur;
        assert i < |chain| && c[i] == chain[i];
      }
      if AnySlur(chain) {
        var i :| 0 <= i < |chain| && chain[i].inSlur;
        assert c[i] == chain[i];
      }
      assert c[|chain|] == m;
    }
    assert AnyStaccato(c) <==> AnyStaccato(chain) || m.staccato by {
      if AnyStaccato(c) && !m.staccato {
        var i :| 0 <= i < |c| && c[i].staccato;
        assert i < |chain| && c[i] == chain[i];
      }
      if AnyStaccato(chain) {
        var i :| 0 <= i < |chain| && chain[i].staccato;
        assert c[i] == chain[i];
      }
      assert c[|chain|] == m;
    }
  }

  lemma {:induction false} TotalDurationAppend(ns: seq<RenderNote>, m: RenderNote)
    ensures TotalDuration(ns + [m]) == TotalDuration(ns) + m.durationBeat
    decreases |ns|
  {
    if ns != [] {
      assert (ns + [m])[1..] == ns[1..] + [m];
      TotalDurationAppend(ns[1..], m);
    }
  }

  /**
   * A tie chain on one pitch (a start, any number of stop-and-starts, a stop) becomes a single
   * merged note: the first note with `is_tie` set, no tie flags, the chain's total duration and
   * the OR of its slur and staccato flags; the active notes are as before.
   */
  lemma TieChain(st: MergeState, first: RenderNote, mids: seq<RenderNote>, last: RenderNote)
    requires first.tieStart && !first.tieStop
    requires Continues(mids, first.midi)
    requires last.tieStop && !last.tieStart && last.midi == first.midi
    requires FindActive(st.active, first.midi) == -1
    ensures MergeFold(st, [first] + mids + [last])
         == st.(merged := st.merged + [ChainNote([first] + mids + [last])])
  {
    var k := |st.active|;
    OpenChain(st, first, mids);
    var s2 := st.(active := st.active + [ChainNote([first] + mids)]);
    FindActiveAt(s2.active, first.midi, k);
    CloseStep(s2, k, [first] + mids, last);
    assert RemoveAt(s2.active, k) == st.active;
    MergeFoldAppend(st, [first] + mids, [last]);
  }

  /** A tie start and its stop-and-starts leave one new active note, the chain so far. */
  lemma OpenChain(st: MergeState, first: RenderNote, mids: seq<RenderNote>)
    requires first.tieStart && !first.tieStop
    requires Continues(mids, first.midi)
    requires FindActive(st.active, first.midi) == -1
    ensures MergeFold(st, [first] + mids) == st.(active := st.active + [ChainNote([first] + mids)])
  {
    var k := |st.active|;
    var s1 := st.(active := st.active + [ChainNote([first])]);
    OpenStep(st, first);
    FindActiveAt(s1.active, first.midi, k);
    MiddleSteps(s1, k, [first], mids);
    assert s1.active[k := ChainNote([first] + mids)] == st.active + [ChainNote([first] + mids)];
    MergeFoldAppend(st, [first], mids);
  }

  /** A tie start on a pitch not yet open appends its chain's note to the active ones. */
  lemma OpenStep(st: MergeState, first: RenderNote)
    requires first.tieStart && !first.tieStop
    requires FindActive(st.active, first.midi) == -1
    ensures MergeStep(st, first) == st.(active := st.active + [ChainNote([first])])
    ensures MergeFold(st, [first]) == MergeStep(st, first)
  {
    assert TotalDuration([first]) == first.durationBeat;
    assert AnySlur([first]) == first.inSlur by {
      if first.inSlur {
        assert [first][0].inSlur;
      }
    }
    assert AnyStaccato([first]) == first.staccato by {
      if first.staccato {
        assert [first][0].staccato;
      }
    }
    assert [first][1..] == [];
  }

  /** The stop that ends a chain moves the chain's note, now complete, to the merged ones. */
  lemma CloseStep(st: MergeState, k: nat, chain: seq<RenderNote>, last: RenderNote)
    requires chain != [] && k < |st.active|
    requires last.tieStop && !last.tieStart
    requires FindActive(st.active, last.midi) == k && st.active[k] == ChainNote(chain)
    ensures MergeStep(st, last)
         == st.(merged := st.merged + [ChainNote(chain + [last])], active := RemoveAt(st.active, k))
    ensures MergeFold(st, [last]) == MergeStep(st, last)
  {
    ChainExtend(chain, last);
    assert [last][1..] == [];
  }

  /** The fold over a concatenation is the fold of the second part after the first. */
  lemma {:induction false} MergeFoldAppend(st: MergeState, a: seq<RenderNote>, b: seq<RenderNote>)
    ensures MergeFold(st, a + b) == MergeFold(MergeFold(st, a), b)
    decreases |a|
  {
    if a == [] {
      assert a + b == b;
    } else {
      assert (a + b)[0] == a[0] && (a + b)[1..] == a[1..] + b;
      MergeFoldAppend(MergeStep(st, a[0]), a[1..], b);
      assert MergeFold(st, a + b) == MergeFold(MergeStep(st, a[0]), a[1..] + b);
      assert MergeFold(st, a) == MergeFold(MergeStep(st, a[0]), a[1..]);
    }
  }

  // ---------------------------------------------------------------------------------------
  // Chains interleaved with other pitches, as a tied chord arrives

  /** The open note of pitch `midi`, if any (`active.get(midi)`). */
  function ActiveOf(active: seq<RenderNote>, midi: int): Option<RenderNote>
  {
    var k := FindActive(active, midi);
    if k >= 0 then Some(active[k]) else None
  }

  /** The notes of one pitch, in input order. */
  function OnPitch(notes: seq<RenderNote>, midi: int): (r: seq<RenderNote>)
    ensures forall i :: 0 <= i < |r| ==> r[i].midi == midi
    decreases |notes|
  {
    if notes == [] then []
    else (if notes[0].midi == midi then [notes[0]] else []) + OnPitch(notes[1..], midi)
  }

  lemma UpdateOther(s: seq<RenderNote>, k: nat, x: RenderNote, midi: int)
    requires k < |s| && s[k].midi != midi && x.midi != midi
    ensures ActiveOf(s[k := x], midi) == ActiveOf(s, midi)
  {
    var r := FindActive(s, midi);
    var t := s[k := x];
    if r >= 0 {
      FindActiveAt(t, midi, r);
    } else {
      assert forall i :: 0 <= i < |t| ==> t[i].midi != midi;
    }
  }

  lemma RemoveOther(s: seq<RenderNote>, k: nat, midi: int)
    requires k < |s| && s[k].midi != midi
    ensures ActiveOf(RemoveAt(s, k), midi) == ActiveOf(s, midi)
  {
    var r := FindActive(s, midi);
    var t := RemoveAt(s, k);
    if r >= 0 {
      var p := if r < k then r else r - 1;
      forall i | 0 <= i <= p
        ensures t[i].midi == midi <==> i == p
      {
        RemoveAtIndex(s, k, i);
      }
      RemoveAtIndex(s, k, p);
      FindActiveAt(t, midi, p);
    } else {
      forall i | 0 <= i < |t|
        ensures t[i].midi != midi
      {
        RemoveAtIndex(s, k, i);
      }
    }
  }

  lemma RemoveAtIndex(s: seq<RenderNote>, k: nat, i: nat)
    requires k < |s| && i < |s| - 1
    ensures RemoveAt(s, k)[i] == if i < k then s[i] else s[i + 1]
  {
  }

  lemma AppendOther(s: seq<RenderNote>, x: RenderNote, midi: int)
    requires x.midi != midi
    ensures ActiveOf(s + [x], midi) == ActiveOf(s, midi)
  {
    var r := FindActive(s, midi);
    if r >= 0 {
      FindActiveAt(s + [x], midi, r);
    } else {
      assert forall i :: 0 <= i < |s + [x]| ==> (s + [x])[i].midi != midi;
    }
  }

  /** A note of another pitch leaves the open note of `midi` as it is. */
  lemma OtherStep(st: MergeState, note: RenderNote, midi: int)
    requires note.midi != midi
    ensures ActiveOf(MergeStep(st, note).active, midi) == ActiveOf(st.active, midi)
  {
    var k := FindActive(st.active, note.midi);
    if note.tieStop && k >= 0 {
      if note.tieStart {
        UpdateOther(st.active, k, Absorb(st.active[k], note), midi);
      } else {
        RemoveOther(st.active, k, midi);
      }
    } else if note.tieStart {
      if k >= 0 {
        UpdateOther(st.active, k, Opened(note), midi);
      } else {
        AppendOther(st.active, Opened(note), midi);
      }
    }
  }

  /** A stop-and-start absorbs into the open note of its pitch, in place. */
  lemma PitchMiddle(st: MergeState, note: RenderNote, b: RenderNote)
    requires note.tieStop && note.tieStart
    requires ActiveOf(st.active, note.midi) == Some(b)
    ensures MergeStep(st, note).merged == st.merged
    ensures ActiveOf(MergeStep(st, note).active, note.midi) == Some(Absorb(b, note))
  {
    var k := FindActive(st.active, note.midi);
    FindActiveUpdate(st.active, k, note.midi, Absorb(b, note));
  }

  /** A stop closes the open note of its pitch and appends it, absorbed, to the merged ones. */
  lemma PitchLast(st: MergeState, note: RenderNote, b: RenderNote)
    requires note.tieStop && !note.tieStart
    requires ActiveOf(st.active, note.midi) == Some(b)
    ensures MergeStep(st, note).merged == st.merged + [Absorb(b, note)]
  {
  }

  /** A tie start on a pitch not open opens a chain of that one note. */
  lemma PitchOpen(st: MergeState, first: RenderNote)
    requires first.tieStart && !first.tieStop
    requires ActiveOf(st.active, first.midi) == None
    ensures MergeStep(st, first).merged == st.merged
    ensures ActiveOf(MergeStep(st, first).active, first.midi) == Some(ChainNote([first]))
  {
    OpenStep(st, first);
    FindActiveAt(st.active + [ChainNote([first])], first.midi, |st.active|);
  }

  /**
   * With the note `b` open on `midi`, a run of notes whose notes of that pitch are
   * stop-and-starts and then one stop puts `b`, with all of them absorbed, in the merged
   * ones, whatever the notes of other pitches in between do.
   */
  lemma {:induction false} InterleavedRest(st: MergeState, midi: int, b: RenderNote, mids: seq<RenderNote>,
                                           last: RenderNote, rest: seq<RenderNote>)
    requires ActiveOf(st.active, midi) == Some(b)
    requires Continues(mids, midi) && last.tieStop && !last.tieStart
    requires OnPitch(rest, midi) == mids + [last]
    ensures AbsorbAll(b, mids + [last]) in MergeFold(st, rest).merged
    decreases |rest|
  {
    assert rest != [];
    var n := rest[0];
    var next := MergeStep(st, n);
    assert MergeFold(st, rest) == MergeFold(next, rest[1..]);
    assert OnPitch(rest, midi) == (if n.midi == midi then [n] else []) + OnPitch(rest[1..], midi);
    if n.midi != midi {
      OtherStep(st, n, midi);
      InterleavedRest(next, midi, b, mids, last, rest[1..]);
    } else if mids == [] {
      assert [n] + OnPitch(rest[1..], midi) == [last];
      assert n == ([n] + OnPitch(rest[1..], midi))[0] == last;
      CloseInterleaved(st, n, b, rest[1..]);
      assert AbsorbAll(b, [last]) == Absorb(b, last);
    } else {
      var whole := mids + [last];
      assert whole == [n] + OnPitch(rest[1..], midi);
      assert whole[0] == n && whole[0] == mids[0];
      assert whole[1..] == OnPitch(rest[1..], midi) && whole[1..] == mids[1..] + [last];
      PitchMiddle(st, n, b);
      InterleavedRest(next, midi, Absorb(b, n), mids[1..], last, rest[1..]);
    }
  }

  /** The closing stop puts the absorbed note in the merged ones, where it stays. */
  lemma CloseInterleaved(st: MergeState, n: RenderNote, b: RenderNote, more: seq<RenderNote>)
    requires n.tieStop && !n.tieStart
    requires ActiveOf(st.active, n.midi) == Some(b)
    ensures Absorb(b, n) in MergeFold(MergeStep(st, n), more).merged
  {
    var next := MergeStep(st, n);
    PitchLast(st, n, b);
    MergedGrows(next, more);
    var r := MergeFold(next, more);
    assert r.merged[|st.merged|] == r.merged[..|next.merged|][|st.merged|];
  }

  lemma OnPitchCons(n: RenderNote, ns: seq<RenderNote>, midi: int)
    ensures OnPitch([n] + ns, midi) == (if n.midi == midi then [n] else []) + OnPitch(ns, midi)
  {
    assert ([n] + ns)[1..] == ns;
  }

  /**
   * A tie chain interleaved with notes of other pitches (the members of a tied chord arrive
   * as start, start, stop, stop) still becomes its single merged note.
   */
  lemma TieChainInterleaved(st: MergeState, first: RenderNote, rest: seq<RenderNote>,
                            mids: seq<RenderNote>, last: RenderNote)
    requires first.tieStart && !first.tieStop
    requires FindActive(st.active, first.midi) == -1
    requires Continues(mids, first.midi)
    requires last.tieStop && !last.tieStart
    requires OnPitch(rest, first.midi) == mids + [last]
    ensures ChainNote([first] + mids + [last]) in MergeFold(st, [first] + rest).merged
  {
    var s1 := MergeStep(st, first);
    PitchOpen(st, first);
    assert ([first] + rest)[0] == first && ([first] + rest)[1..] == rest;
    InterleavedRest(s1, first.midi, ChainNote([first]), mids, last, rest);
    AbsorbChain([first], mids + [last]);
    assert [first] + (mids + [last]) == [first] + mids + [last];
  }

  /** A tied two-note chord: both chains close, each into its own merged note. */
  lemma TiedChord(c1: RenderNote, e1: RenderNote, c2: RenderNote, e2: RenderNote)
    requires c1.tieStart && !c1.tieStop && e1.tieStart && !e1.tieStop
    requires c2.tieStop && !c2.tieStart && e2.tieStop && !e2.tieStart
    requires c2.midi == c1.midi && e2.midi == e1.midi && c1.midi != e1.midi
    ensures var st := MergeFold(MergeState([], []), [c1, e1, c2, e2]);
      ChainNote([c1, c2]) in st.merged && ChainNote([e1, e2]) in st.merged
  {
    var init := MergeState([], []);
    ChordPitches(c1, e1, c2, e2);
    assert [c1, e1, c2, e2] == [c1] + [e1, c2, e2] && [e1, c2, e2] == [e1] + [c2, e2];
    TieChainInterleaved(init, c1, [e1, c2, e2], [], c2);
    assert [c1] + [] + [c2] == [c1, c2];
    var s1 := MergeStep(init, c1);
    OpenStep(init, c1);
    assert MergeFold(init, [c1] + [e1, c2, e2]) == MergeFold(s1, [e1, c2, e2]);
    TieChainInterleaved(s1, e1, [c2, e2], [], e2);
    assert [e1] + [] + [e2] == [e1, e2];
  }

  lemma ChordPitches(c1: RenderNote, e1: RenderNote, c2: RenderNote, e2: RenderNote)
    requires c2.midi == c1.midi && e2.midi == e1.midi && c1.midi != e1.midi
    ensures OnPitch([e1, c2, e2], c1.midi) == [] + [c2]
    ensures OnPitch([c2, e2], e1.midi) == [] + [e2]
  {
    OnPitchCons(e2, [], c1.midi);
    OnPitchCons(c2, [e2], c1.midi);
    OnPitchCons(e1, [c2, e2], c1.midi);
    OnPitchCons(e2, [], e1.midi);
    OnPitchCons(c2, [e2], e1.midi);
    assert [e2] + [] == [e2] && [c2] + [e2] == [c2, e2] && [e1] + [c2, e2] == [e1, c2, e2];
  }

  /**
   * A tie start on a pitch already open, without a stop, replaces the open note in place:
   * the earlier note is dropped from the output.
   */
  lemma RestartReplaces(st: MergeState, first: RenderNote, again: RenderNote)
    requires first.tieStart && !first.tieStop
    requires again.tieStart && !again.tieStop && again.midi == first.midi
    requires FindActive(st.active, first.midi) == -1
    ensures MergeFold(st, [first, again]) == st.(active := st.active + [Opened(again)])
  {
    var s1 := MergeStep(st, first);
    FindActiveAt(s1.active, first.midi, |st.active|);
    assert [first, again][1..] == [again] && [again][1..] == [];
    var s2 := MergeStep(s1, again);
    assert s2 == st.(active := st.active + [Opened(again)]);
    assert MergeFold(s1, [again]) == s2;
  }

  /** Untied notes never enter `active`. */
  predicate Untied(notes: seq<RenderNote>)
  {
    forall i :: 0 <= i < |notes| ==> !notes[i].tieStart && !notes[i].tieStop
  }

  lemma {:induction false} UntiedFold(st: MergeState, notes: seq<RenderNote>)
    requires Untied(notes)
    ensures MergeFold(st, notes) == st.(merged := st.merged + notes)
    decreases |notes|
  {
    if notes != [] {
      UntiedFold(MergeStep(st, notes[0]), notes[1..]);
      assert st.merged + [notes[0]] + notes[1..] == st.merged + notes;
    }
  }

  /** Without tie flags, merging only sorts: every note passes through unchanged. */
  lemma UntiedPassThrough(notes: seq<RenderNote>)
    requires Untied(notes)
    ensures MergeTies(notes) == SortBy(notes, MergeKey)
    ensures multiset(MergeTies(notes)) == multiset(notes)
  {
    UntiedFold(MergeState([], []), notes);
    assert [] + notes + [] == notes;
  }

  /** Merged notes are never taken back. */
  lemma {:induction false} MergedGrows(st: MergeState, notes: seq<RenderNote>)
    ensures var r := MergeFold(st, notes);
      |r.merged| >= |st.merged| && r.merged[..|st.merged|] == st.merged
    decreases |notes|
  {
    if notes != [] {
      var next := MergeStep(st, notes[0]);
      MergedGrows(next, notes[1..]);
      var r := MergeFold(next, notes[1..]);
      assert r.merged[..|st.merged|] == r.merged[..|next.merged|][..|st.merged|];
    }
  }

  /** A note with no tie flags reaches the output unchanged, whatever the notes around it. */
  lemma UntiedKept(notes: seq<RenderNote>, i: nat)
    requires i < |notes| && !notes[i].tieStart && !notes[i].tieStop
    ensures notes[i] in MergeTies(notes)
  {
    var init := MergeState([], []);
    assert notes == notes[..i] + notes[i..];
    MergeFoldAppend(init, notes[..i], notes[i..]);
    var s := MergeFold(init, notes[..i]);
    var s1 := MergeStep(s, notes[i]);
    assert s1.merged == s.merged + [notes[i]];
    MergedGrows(s1, notes[i + 1..]);
    assert notes[i..][0] == notes[i] && notes[i..][1..] == notes[i + 1..];
    var st := MergeFold(init, notes);
    assert st == MergeFold(s1, notes[i + 1..]);
    assert st.merged[|s.merged|] == s1.merged[|s.merged|] == notes[i];
    assert notes[i] in multiset(st.merged + st.active) by {
      assert (st.merged + st.active)[|s.merged|] == notes[i];
    }
  }

  /** Each note adds at most one entry, so merging never lengthens the list. */
  lemma {:induction false} MergeFoldSize(st: MergeState, notes: seq<RenderNote>)
    ensures var r := MergeFold(st, notes); |r.merged| + |r.active| <= |st.merged| + |st.active| + |notes|
    decreases |notes|
  {
    if notes != [] {
      MergeFoldSize(MergeStep(st, notes[0]), notes[1..]);
    }
  }

  lemma MergeTiesShorter(notes: seq<RenderNote>)
    ensures |MergeTies(notes)| <= |notes|
  {
    MergeFoldSize(MergeState([], []), notes);
    var st := MergeFold(MergeState([], []), notes);
    assert |MergeTies(notes)| == |st.merged + st.active|;
  }

  // ---------------------------------------------------------------------------------------
  // The loop itself

  /** `_merge_ties`: the loop over local `merged` and `active`, then the sort. */
  method MergeTieChains(notes: seq<RenderNote>) returns (result: seq<RenderNote>)
    ensures result == MergeTies(notes)
  {
    var merged: seq<RenderNote> := [];
    var active: seq<RenderNote> := [];
    var i := 0;
    while i < |notes|
      invariant 0 <= i <= |notes|
      invariant MergeFold(MergeState(merged, active), notes[i..]) == MergeFold(MergeState([], []), notes)
    {
      var note := notes[i];
      assert notes[i..][1..] == notes[i + 1..];
      i := i + 1;
      var k := FindActive(active, note.midi);
      if note.tieStop && k >= 0 {
        var base := Absorb(active[k], note);
        if note.tieStart {
          active := active[k := base];
        } else {
          merged := merged + [base];
          active := RemoveAt(active, k);
        }
        continue;
      }
      if note.tieStart {
        if k >= 0 {
          active := active[k := Opened(note)];
        } else {
          active := active + [Opened(note)];
        }
        continue;
      }
      merged := merged + [note];
    }
    result := SortBy(merged + active, MergeKey);
  }
}
