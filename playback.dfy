/**
 * `_to_playback_events` and the final event sort of `parse_musicxml`: recognized notes that
 * share an onset (start beat and measure) become one chord-shaped playback event.
 */
module Playback {
  import opened Wrappers
  import opened Ordering
  import opened Articulation

  datatype Hand = Right | Left

  /** `PlaybackEvent`, the shape of the response's `playbackEvents`. */
  datatype PlaybackEvent = PlaybackEvent(
    startBeat: real,
    durationBeat: real,
    gateBeat: real,
    pitches: seq<string>,
    midis: seq<int>,
    hand: Hand,
    staff: string,
    voice: string,
    sourceMeasure: int)

  /** The `grouped` dict key `(startBeat, sourceMeasure)`. */
  datatype GroupKey = GroupKey(start: real, measure: int)

  function KeyOf(n: RecognizedNote): GroupKey
  {
    GroupKey(n.startBeat, n.sourceMeasure)
  }

  /** Tuple order on the group keys, as `sorted(grouped.items())` sees them. */
  function GroupOrder(k: GroupKey): SortKey
  {
    SortKey(k.start, [k.measure])
  }

  /** `key=lambda item: item.midi`. */
  function MidiOrder(n: RecognizedNote): SortKey
  {
    SortKey(0.0, [n.midi])
  }

  /** The distinct group keys, in order of first occurrence. */
  function GroupKeys(notes: seq<RecognizedNote>): (r: seq<GroupKey>)
    ensures forall i, j :: 0 <= i < j < |r| ==> r[i] != r[j]
    ensures forall k :: k in r <==> exists i :: 0 <= i < |notes| && KeyOf(notes[i]) == k
  {
    if notes == [] then []
    else
      var init := notes[..|notes| - 1];
      var p := GroupKeys(init);
      var k := KeyOf(notes[|notes| - 1]);
      assert forall i :: 0 <= i < |init| ==> init[i] == notes[i];
      if k in p then p else p + [k]
  }

  /** The notes of group `k`, in input order (what `setdefault(...).append` collects). */
  function Members(notes: seq<RecognizedNote>, k: GroupKey): (r: seq<RecognizedNote>)
    ensures forall n :: n in r <==> n in notes && KeyOf(n) == k
    ensures (exists i :: 0 <= i < |notes| && KeyOf(notes[i]) == k) ==> |r| > 0
  {
    if notes == [] then []
    else
      var init := notes[..|notes| - 1];
      var last := notes[|notes| - 1];
      assert notes == init + [last];
      assert forall n :: n in notes <==> n in init || n == last;
      var p := Members(init, k);
      if KeyOf(last) == k then p + [last] else p
  }

  function MaxDuration(ns: seq<RecognizedNote>): (r: real)
    requires |ns| > 0
    ensures forall n :: n in ns ==> n.durationBeat <= r
    ensures exists n :: n in ns && n.durationBeat == r
  {
    if |ns| == 1 then ns[0].durationBeat
    else
      var rest := MaxDuration(ns[1..]);
      assert forall n :: n in ns <==> n == ns[0] || n in ns[1..];
      Max(ns[0].durationBeat, rest)
  }

  function MaxGate(ns: seq<RecognizedNote>): (r: real)
    requires |ns| > 0
    ensures forall n :: n in ns ==> n.gateBeat <= r
    ensures exists n :: n in ns && n.gateBeat == r
  {
    if |ns| == 1 then ns[0].gateBeat
    else
      var rest := MaxGate(ns[1..]);
      assert forall n :: n in ns <==> n == ns[0] || n in ns[1..];
      Max(ns[0].gateBeat, rest)
  }

  function PitchesOf(ns: seq<RecognizedNote>): (r: seq<string>)
    ensures |r| == |ns| && forall i :: 0 <= i < |ns| ==> r[i] == ns[i].pitch
  {
    seq(|ns|, i requires 0 <= i < |ns| => ns[i].pitch)
  }

  function MidisOf(ns: seq<RecognizedNote>): (r: seq<int>)
    ensures |r| == |ns| && forall i :: 0 <= i < |ns| ==> r[i] == ns[i].midi
  {
    seq(|ns|, i requires 0 <= i < |ns| => ns[i].midi)
  }

  /** Notes sorted by `MidiOrder` have ascending MIDI numbers. */
  lemma MidisAscending(ordered: seq<RecognizedNote>)
    requires SortedBy(ordered, MidiOrder)
    ensures forall i, j :: 0 <= i < j < |ordered| ==> MidisOf(ordered)[i] <= MidisOf(ordered)[j]
  {
    forall i, j | 0 <= i < j < |ordered| ensures ordered[i].midi <= ordered[j].midi {
      assert KeyLe(MidiOrder(ordered[i]), MidiOrder(ordered[j]));
    }
  }

  /**
   * The event of one group: its notes sorted by MIDI number, `pitches` and `midis` read
   * off that order, duration and gate the largest in the group.
   */
  function MakeEvent(k: GroupKey, members: seq<RecognizedNote>, hand: Hand, staff: string, voice: string)
    : (e: PlaybackEvent)
    requires |members| > 0
    ensures e.startBeat == k.start && e.sourceMeasure == k.measure
    ensures e.hand == hand && e.staff == staff && e.voice == voice
  {
    var ordered := SortBy(members, MidiOrder);
    PlaybackEvent(k.start, MaxDuration(ordered), MaxGate(ordered), PitchesOf(ordered), MidisOf(ordered),
                  hand, staff, voice, k.measure)
  }

  /**
   * An event holds every note of its group once, lowest MIDI number first, with pitch and
   * MIDI number read off the same note.
   */
  lemma MakeEventPitches(k: GroupKey, members: seq<RecognizedNote>, hand: Hand, staff: string, voice: string)
    requires |members| > 0
    ensures var e := MakeEvent(k, members, hand, staff, voice);
      && |e.midis| == |e.pitches| == |members|
      && (forall i, j :: 0 <= i < j < |e.midis| ==> e.midis[i] <= e.midis[j])
      && (exists ordered: seq<RecognizedNote> ::
            && multiset(ordered) == multiset(members) && |ordered| == |members|
            && (forall i :: 0 <= i < |ordered| ==> e.pitches[i] == ordered[i].pitch && e.midis[i] == ordered[i].midi))
  {
    var ordered := SortBy(members, MidiOrder);
    MidisAscending(ordered);
    var e := MakeEvent(k, members, hand, staff, voice);
    assert e.pitches == PitchesOf(ordered) && e.midis == MidisOf(ordered);
  }

  /** An event lasts, and sounds, as long as the longest note of its group. */
  lemma MakeEventSpan(k: GroupKey, members: seq<RecognizedNote>, hand: Hand, staff: string, voice: string)
    requires |members| > 0
    ensures var e := MakeEvent(k, members, hand, staff, voice);
      && (forall n :: n in members ==> n.durationBeat <= e.durationBeat && n.gateBeat <= e.gateBeat)
      && (exists n :: n in members && n.durationBeat == e.durationBeat)
      && (exists n :: n in members && n.gateBeat == e.gateBeat)
  {
    var ordered := SortBy(members, MidiOrder);
    SameElements(ordered, members);
    var e := MakeEvent(k, members, hand, staff, voice);
    assert e.durationBeat == MaxDuration(ordered) && e.gateBeat == MaxGate(ordered);
  }

  /** `_to_playback_events`: one event per group, in ascending (start, measure) order. */
  function ToPlaybackEvents(notes: seq<RecognizedNote>, hand: Hand, staff: string, voice: string)
    : (r: seq<PlaybackEvent>)
    ensures |r| == |GroupKeys(notes)|
  {
    var keys := SortBy(GroupKeys(notes), GroupOrder);
    seq(|keys|, i requires 0 <= i < |keys| => GroupEvent(notes, keys, i, hand, staff, voice))
  }

  /** The event of the `i`-th key in sorted order. */
  function GroupEvent(notes: seq<RecognizedNote>, keys: seq<GroupKey>, i: nat, hand: Hand, staff: string, voice: string)
    : PlaybackEvent
    requires i < |keys| && multiset(keys) == multiset(GroupKeys(notes))
  {
    SameElements(keys, GroupKeys(notes));
    assert keys[i] in keys;
    MakeEvent(keys[i], Members(notes, keys[i]), hand, staff, voice)
  }

  // ---------------------------------------------------------------------------------------
  // Properties of the grouping

  /** The `i`-th event sits at the `i`-th key in sorted order. */
  lemma EventAtKey(notes: seq<RecognizedNote>, hand: Hand, staff: string, voice: string, i: nat)
    requires i < |ToPlaybackEvents(notes, hand, staff, voice)|
    ensures var keys := SortBy(GroupKeys(notes), GroupOrder);
      var e := ToPlaybackEvents(notes, hand, staff, voice)[i];
      i < |keys| && e.startBeat == keys[i].start && e.sourceMeasure == keys[i].measure
  {
  }

  /** Events come in strictly ascending (start, measure) order: no onset has two events. */
  lemma PlaybackEventsOrdered(notes: seq<RecognizedNote>, hand: Hand, staff: string, voice: string)
    ensures var r := ToPlaybackEvents(notes, hand, staff, voice);
      forall i, j :: 0 <= i < j < |r| ==>
        r[i].startBeat < r[j].startBeat
        || (r[i].startBeat == r[j].startBeat && r[i].sourceMeasure < r[j].sourceMeasure)
  {
    var g := GroupKeys(notes);
    var keys := SortBy(g, GroupOrder);
    var r := ToPlaybackEvents(notes, hand, staff, voice);
    SortDistinctStrict(g, GroupOrder);
    forall i, j | 0 <= i < j < |r|
      ensures r[i].startBeat < r[j].startBeat
           || (r[i].startBeat == r[j].startBeat && r[i].sourceMeasure < r[j].sourceMeasure)
    {
      EventAtKey(notes, hand, staff, voice, i);
      EventAtKey(notes, hand, staff, voice, j);
      assert KeyLe(GroupOrder(keys[i]), GroupOrder(keys[j])) && GroupOrder(keys[i]) != GroupOrder(keys[j]);
    }
  }

  /** Every note's onset has an event. */
  lemma NoteHasEvent(notes: seq<RecognizedNote>, hand: Hand, staff: string, voice: string, n: RecognizedNote)
    requires n in notes
    ensures var r := ToPlaybackEvents(notes, hand, staff, voice);
      exists i :: 0 <= i < |r| && r[i].startBeat == n.startBeat && r[i].sourceMeasure == n.sourceMeasure
  {
    var g := GroupKeys(notes);
    var keys := SortBy(g, GroupOrder);
    SameElements(keys, g);
    var a :| 0 <= a < |notes| && notes[a] == n;
    assert KeyOf(n) in keys;
    var i :| 0 <= i < |keys| && keys[i] == KeyOf(n);
    EventAtKey(notes, hand, staff, voice, i);
  }

  /** Every event's onset is some note's. */
  lemma EventHasNote(notes: seq<RecognizedNote>, hand: Hand, staff: string, voice: string, i: nat)
    requires i < |ToPlaybackEvents(notes, hand, staff, voice)|
    ensures var r := ToPlaybackEvents(notes, hand, staff, voice);
      exists n :: n in notes && r[i].startBeat == n.startBeat && r[i].sourceMeasure == n.sourceMeasure
  {
    var g := GroupKeys(notes);
    var keys := SortBy(g, GroupOrder);
    SameElements(keys, g);
    EventAtKey(notes, hand, staff, voice, i);
    assert keys[i] in g;
    var a :| 0 <= a < |notes| && KeyOf(notes[a]) == keys[i];
    assert notes[a] in notes;
  }

  /** Each event is built from exactly the notes of its onset, as `MakeEvent` describes. */
  lemma PlaybackEventMembers(notes: seq<RecognizedNote>, hand: Hand, staff: string, voice: string, i: nat)
    requires i < |ToPlaybackEvents(notes, hand, staff, voice)|
    ensures var e := ToPlaybackEvents(notes, hand, staff, voice)[i];
      var ms := Members(notes, GroupKey(e.startBeat, e.sourceMeasure));
      && |ms| > 0
      && e == MakeEvent(GroupKey(e.startBeat, e.sourceMeasure), ms, hand, staff, voice)
      && (forall n :: n in ms <==> n in notes && n.startBeat == e.startBeat && n.sourceMeasure == e.sourceMeasure)
  {
    var keys := SortBy(GroupKeys(notes), GroupOrder);
    SameElements(keys, GroupKeys(notes));
    assert keys[i] in keys;
  }

  /** Every event of one call carries the hand, staff and voice it was called with. */
  lemma EventsLabelled(notes: seq<RecognizedNote>, hand: Hand, staff: string, voice: string)
    ensures forall e :: e in ToPlaybackEvents(notes, hand, staff, voice) ==>
      e.hand == hand && e.staff == staff && e.voice == voice
  {
    var r := ToPlaybackEvents(notes, hand, staff, voice);
    forall e | e in r ensures e.hand == hand && e.staff == staff && e.voice == voice {
      var i :| 0 <= i < |r| && r[i] == e;
      PlaybackEventMembers(notes, hand, staff, voice, i);
    }
  }

  // ---------------------------------------------------------------------------------------
  // The loops themselves

  /** The `grouped` dict the first loop builds: each key with its notes, in input order. */
  function GroupMap(notes: seq<RecognizedNote>): map<GroupKey, seq<RecognizedNote>>
  {
    if notes == [] then map[]
    else
      var m := GroupMap(notes[..|notes| - 1]);
      var last := notes[|notes| - 1];
      var k := KeyOf(last);
      m[k := (if k in m then m[k] else []) + [last]]
  }

  /** The dict's keys are the group keys, and each holds exactly its group's members. */
  lemma {:induction false} GroupMapSpec(notes: seq<RecognizedNote>)
    ensures forall k :: k in GroupMap(notes) <==> k in GroupKeys(notes)
    ensures forall k :: k in GroupMap(notes) ==> GroupMap(notes)[k] == Members(notes, k)
    decreases |notes|
  {
    if notes != [] {
      var init := notes[..|notes| - 1];
      var last := notes[|notes| - 1];
      GroupMapSpec(init);
      if KeyOf(last) !in GroupKeys(init) {
        MembersAbsent(init, KeyOf(last));
      }
    }
  }

  /** One more note: `grouped.setdefault(key, []).append(note)`. */
  lemma GroupMapSnoc(notes: seq<RecognizedNote>, i: nat)
    requires i < |notes|
    ensures var m := GroupMap(notes[..i]);
      var k := KeyOf(notes[i]);
      GroupMap(notes[..i + 1]) == m[k := (if k in m then m[k] else []) + [notes[i]]]
  {
    var p := notes[..i + 1];
    assert p[..|p| - 1] == notes[..i] && p[|p| - 1] == notes[i];
  }

  lemma GroupKeysSnoc(notes: seq<RecognizedNote>, i: nat)
    requires i < |notes|
    ensures var g := GroupKeys(notes[..i]);
      GroupKeys(notes[..i + 1]) == if KeyOf(notes[i]) in g then g else g + [KeyOf(notes[i])]
  {
    var p := notes[..i + 1];
    assert p[..|p| - 1] == notes[..i] && p[|p| - 1] == notes[i];
  }

  lemma MembersAbsent(notes: seq<RecognizedNote>, k: GroupKey)
    requires k !in GroupKeys(notes)
    ensures Members(notes, k) == []
  {
  }

  /** The second loop's event for the `j`-th sorted key is the one `ToPlaybackEvents` places there. */
  lemma EventOfGroup(notes: seq<RecognizedNote>, j: nat, grouped: map<GroupKey, seq<RecognizedNote>>,
                     hand: Hand, staff: string, voice: string)
    requires var keys := SortBy(GroupKeys(notes), GroupOrder);
      j < |keys| && keys[j] in grouped && grouped[keys[j]] == Members(notes, keys[j])
    ensures var keys := SortBy(GroupKeys(notes), GroupOrder);
      && |grouped[keys[j]]| > 0
      && j < |ToPlaybackEvents(notes, hand, staff, voice)|
      && ToPlaybackEvents(notes, hand, staff, voice)[j] == MakeEvent(keys[j], grouped[keys[j]], hand, staff, voice)
  {
    var keys := SortBy(GroupKeys(notes), GroupOrder);
    SameElements(keys, GroupKeys(notes));
    assert keys[j] in keys;
  }

  /**
   * The first loop of `_to_playback_events`: `grouped.setdefault(key, []).append(note)`, with
   * the dict's key order kept alongside as `order`.
   */
  method GroupNotes(notes: seq<RecognizedNote>) returns (grouped: map<GroupKey, seq<RecognizedNote>>, order: seq<GroupKey>)
    ensures grouped == GroupMap(notes) && order == GroupKeys(notes)
  {
    grouped, order := map[], [];
    var i := 0;
    assert notes[..0] == [];
    while i < |notes|
      invariant 0 <= i <= |notes|
      invariant grouped == GroupMap(notes[..i]) && order == GroupKeys(notes[..i])
    {
      var note := notes[i];
      var key := KeyOf(note);
      GroupMapSnoc(notes, i);
      GroupKeysSnoc(notes, i);
      assert key in grouped <==> key in order by {
        GroupMapSpec(notes[..i]);
      }
      if key in grouped {
        grouped := grouped[key := grouped[key] + [note]];
      } else {
        grouped := grouped[key := [] + [note]];
        order := order + [key];
      }
      i := i + 1;
    }
    assert notes[..i] == notes;
  }

  /** `_to_playback_events`: fill `grouped` with `setdefault`, then one event per sorted key. */
  method GroupPlaybackEvents(notes: seq<RecognizedNote>, hand: Hand, staff: string, voice: string)
    returns (events: seq<PlaybackEvent>)
    ensures events == ToPlaybackEvents(notes, hand, staff, voice)
  {
    var grouped, order := GroupNotes(notes);
    GroupMapSpec(notes);
    var keys := SortBy(order, GroupOrder);
    SameElements(keys, order);
    ghost var expected := ToPlaybackEvents(notes, hand, staff, voice);
    events := [];
    var j := 0;
    while j < |keys|
      invariant 0 <= j <= |keys| == |expected|
      invariant events == expected[..j]
    {
      var key := keys[j];
      assert key in order;
      EventOfGroup(notes, j, grouped, hand, staff, voice);
      events := events + [MakeEvent(key, grouped[key], hand, staff, voice)];
      PrefixSnoc(expected, j);
      j := j + 1;
    }
    assert expected[..j] == expected;
  }

  // ---------------------------------------------------------------------------------------
  // The final sort of all events

  /** `(startBeat, 0 if right else 1, sourceMeasure, midis[0] if midis else -1)`. */
  function EventOrder(e: PlaybackEvent): (k: SortKey)
    ensures k.beat == e.startBeat && |k.ranks| == 3
    ensures 0 <= k.ranks[0] <= 1 && (k.ranks[0] == 0 <==> e.hand == Right)
    ensures k.ranks[1] == e.sourceMeasure
    ensures |e.midis| > 0 ==> k.ranks[2] == e.midis[0]
  {
    SortKey(e.startBeat, [if e.hand == Right then 0 else 1, e.sourceMeasure, if |e.midis| > 0 then e.midis[0] else -1])
  }

  /** The combined list sorted by onset, the right hand before the left at equal onsets. */
  function SortEvents(events: seq<PlaybackEvent>): (r: seq<PlaybackEvent>)
    ensures multiset(r) == multiset(events) && SortedBy(r, EventOrder)
    ensures forall i, j :: 0 <= i < j < |r| ==> r[i].startBeat <= r[j].startBeat
    ensures forall i, j :: 0 <= i < j < |r| && r[i].startBeat == r[j].startBeat && r[i].hand == Left ==>
      r[j].hand == Left
    ensures forall i, j :: 0 <= i < j < |r| && r[i].startBeat == r[j].startBeat && r[i].hand == r[j].hand ==>
      r[i].sourceMeasure <= r[j].sourceMeasure
  {
    var r := SortBy(events, EventOrder);
    forall i, j | 0 <= i < j < |r| && r[i].startBeat == r[j].startBeat
      ensures (r[i].hand == Left ==> r[j].hand == Left)
      ensures (r[i].hand == r[j].hand ==> r[i].sourceMeasure <= r[j].sourceMeasure)
    {
      var a, b := EventOrder(r[i]).ranks, EventOrder(r[j]).ranks;
      assert KeyLe(EventOrder(r[i]), EventOrder(r[j]));
      RanksLeHead(a, b);
      if a[0] == b[0] {
        RanksLeHead(a[1..], b[1..]);
      }
    }
    r
  }
}
