/**
 * The catalog of recognised scores: instrument and title validation, the lookup by id, the
 * in-place update of an entry's summary, the guarded reset, and the playback events rebuilt
 * for records stored without them. The index is a list of entries held in memory.
 */
module Catalog {
  import opened Wrappers
  import opened Text
  import opened Articulation
  import opened Playback

  /** `SUPPORTED_INSTRUMENTS`: the keys of the player's `SOUND_FONT_PROGRAMS`, in that order. */
  const SupportedInstruments: seq<string> := ["piano", "guitar", "musicBox", "violin", "trumpet", "saxophone", "flute"]

  /** `_default_instruments()`: both hands default to the piano. */
  const DefaultInstrument: string := "piano"

  /** The confirmation `reset_catalog` insists on. */
  const ResetToken: string := "WIPE_CATALOG"

  /** Why a `CatalogValidationError` is raised. */
  datatype Reason = UnsupportedInstrument(name: string) | EmptyTitle | NothingToUpdate | InvalidResetToken

  /** `CatalogValidationError` and `CatalogNotFoundError`. */
  datatype CatalogError = Validation(reason: Reason) | NotFound(id: string)

  /** `CatalogEntrySummary`, one element of the index's `entries`. */
  datatype Entry = Entry(
    id: string,
    title: string,
    imagePath: string,
    inputType: string,
    tempo: int,
    timeSignature: string,
    noteCount: nat,
    createdAt: string,
    updatedAt: string,
    imageHash: string,
    melodyInstrument: string,
    leftHandInstrument: string)

  // ---------------------------------------------------------------------------------------
  // Validation

  /** `_normalize_instrument`: absent or blank means no change; otherwise it must be supported. */
  function NormalizeInstrument(value: Option<string>): (r: Result<Option<string>, CatalogError>)
    ensures value.None? ==> r == Ok(None)
    ensures r.Ok? && r.value.Some? ==>
      value.Some? && r.value.value == Strip(value.value) && r.value.value in SupportedInstruments
    ensures r.Err? <==> value.Some? && Strip(value.value) != [] && Strip(value.value) !in SupportedInstruments
    ensures r.Err? ==> r.error == Validation(UnsupportedInstrument(Strip(value.value)))
  {
    if value.None? then Ok(None)
    else
      var normalized := Strip(value.value);
      if normalized == [] then Ok(None)
      else if normalized !in SupportedInstruments then Err(Validation(UnsupportedInstrument(normalized)))
      else Ok(Some(normalized))
  }

  /** Whitespace only is treated as not given. */
  lemma NormalizeBlank(value: string)
    ensures NormalizeInstrument(Some(value)) == Ok(None) <==> AllSpace(value)
  {
    StripEmptyIffAllSpace(value);
  }

  /** Normalising a normalised instrument gives it back unchanged. */
  lemma NormalizeIdempotent(value: Option<string>)
    requires NormalizeInstrument(value).Ok? && NormalizeInstrument(value).value.Some?
    ensures NormalizeInstrument(NormalizeInstrument(value).value) == NormalizeInstrument(value)
  {
    var x := Strip(value.value);
    assert x != [] && x in SupportedInstruments by {
      assert NormalizeInstrument(value) == Ok(Some(x));
    }
    assert Strip(x) == x by {
      StripIdempotent(value.value);
    }
  }

  /** The fields an update supplies, after normalisation. */
  datatype Update = Update(title: Option<string>, melody: Option<string>, left: Option<string>)

  /** `value is not None and value != ""`. */
  predicate Supplied(value: Option<string>)
  {
    value.Some? && value.value != ""
  }

  /**
   * The validation prefix of `update_entry`: the melody, then the left-hand instrument, then
   * an empty title, then an update that supplies nothing.
   */
  function ValidateUpdate(title: Option<string>, melody: Option<string>, left: Option<string>)
    : (r: Result<Update, CatalogError>)
    ensures NormalizeInstrument(melody).Err? ==> r == Err(NormalizeInstrument(melody).error)
    ensures NormalizeInstrument(melody).Ok? && NormalizeInstrument(left).Err? ==> r == Err(NormalizeInstrument(left).error)
    ensures r.Ok? ==> r.value.melody == NormalizeInstrument(melody).value && r.value.left == NormalizeInstrument(left).value
    ensures r.Ok? ==> (r.value.title.Some? <==> title.Some?)
    ensures r.Ok? && title.Some? ==> r.value.title.value == Strip(title.value) != []
  {
    var normalizedTitle := if title.Some? then Some(Strip(title.value)) else None;
    var m := NormalizeInstrument(melody);
    if m.Err? then Err(m.error)
    else
      var l := NormalizeInstrument(left);
      if l.Err? then Err(l.error)
      else if title.Some? && normalizedTitle.value == [] then Err(Validation(EmptyTitle))
      else if !(Supplied(normalizedTitle) || Supplied(m.value) || Supplied(l.value)) then Err(Validation(NothingToUpdate))
      else Ok(Update(normalizedTitle, m.value, l.value))
  }

  /** A whitespace-only title is rejected once both instruments pass. */
  lemma ValidateEmptyTitle(title: Option<string>, melody: Option<string>, left: Option<string>)
    ensures ValidateUpdate(title, melody, left) == Err(Validation(EmptyTitle)) <==>
      && NormalizeInstrument(melody).Ok? && NormalizeInstrument(left).Ok?
      && title.Some? && AllSpace(title.value)
  {
    if title.Some? {
      StripEmptyIffAllSpace(title.value);
    }
  }

  /** The update is refused as empty exactly when there is no title and neither instrument says anything. */
  lemma ValidateNothingToUpdate(title: Option<string>, melody: Option<string>, left: Option<string>)
    ensures ValidateUpdate(title, melody, left) == Err(Validation(NothingToUpdate)) <==>
      && title.None?
      && NormalizeInstrument(melody) == Ok(None)
      && NormalizeInstrument(left) == Ok(None)
  {
  }

  /** An accepted update supplies at least one field, and every instrument it names is supported. */
  lemma ValidateAccepted(title: Option<string>, melody: Option<string>, left: Option<string>)
    requires ValidateUpdate(title, melody, left).Ok?
    ensures var u := ValidateUpdate(title, melody, left).value;
      && (Supplied(u.title) || Supplied(u.melody) || Supplied(u.left))
      && (u.melody.Some? ==> u.melody.value in SupportedInstruments)
      && (u.left.Some? ==> u.left.value in SupportedInstruments)
  {
  }

  // ---------------------------------------------------------------------------------------
  // Entries

  /** `_summary_from_raw`: an unsupported stored instrument reads as the default. */
  function SummaryFromRaw(raw: Entry): (r: Entry)
    ensures r.melodyInstrument in SupportedInstruments && r.leftHandInstrument in SupportedInstruments
  {
    raw.(melodyInstrument := if raw.melodyInstrument in SupportedInstruments then raw.melodyInstrument else DefaultInstrument,
         leftHandInstrument := if raw.leftHandInstrument in SupportedInstruments then raw.leftHandInstrument else DefaultInstrument)
  }

  /** Reading a summary changes nothing but unsupported instruments, and a summary reads as itself. */
  lemma SummaryFromRawKeeps(raw: Entry)
    ensures var r := SummaryFromRaw(raw);
      && r.(melodyInstrument := raw.melodyInstrument, leftHandInstrument := raw.leftHandInstrument) == raw
      && (raw.melodyInstrument in SupportedInstruments ==> r.melodyInstrument == raw.melodyInstrument)
      && (raw.leftHandInstrument in SupportedInstruments ==> r.leftHandInstrument == raw.leftHandInstrument)
      && SummaryFromRaw(r) == r
  {
  }

  /** The position of the first entry with this id, if any. */
  function FindEntry(entries: seq<Entry>, id: string): (r: Option<nat>)
    ensures r.Some? ==> r.value < |entries| && entries[r.value].id == id
    ensures r.Some? ==> forall k :: 0 <= k < r.value ==> entries[k].id != id
    ensures r.None? <==> forall k :: 0 <= k < |entries| ==> entries[k].id != id
    decreases |entries|
  {
    if entries == [] then None
    else if entries[0].id == id then Some(0)
    else
      var rest := FindEntry(entries[1..], id);
      assert forall k :: 1 <= k < |entries| ==> entries[k] == entries[1..][k - 1];
      if rest.None? then None else Some(rest.value + 1)
  }

  /** `_entry_by_id`: the linear search, giving the index and the entry, or `NotFound`. */
  method EntryById(entries: seq<Entry>, id: string) returns (r: Result<(nat, Entry), CatalogError>)
    ensures FindEntry(entries, id).None? ==> r == Err(NotFound(id))
    ensures FindEntry(entries, id).Some? ==>
      r == Ok((FindEntry(entries, id).value, entries[FindEntry(entries, id).value]))
  {
    var index := 0;
    while index < |entries|
      invariant 0 <= index <= |entries|
      invariant forall k :: 0 <= k < index ==> entries[k].id != id
    {
      if entries[index].id == id {
        return Ok((index, entries[index]));
      }
      index := index + 1;
    }
    return Err(NotFound(id));
  }

  /** The summary `update_entry` writes back: the supplied fields, and the new `updatedAt`. */
  function Apply(summary: Entry, u: Update, now: string): (r: Entry)
    ensures r.(title := summary.title, melodyInstrument := summary.melodyInstrument,
               leftHandInstrument := summary.leftHandInstrument, updatedAt := summary.updatedAt) == summary
    ensures u.title.Some? ==> r.title == u.title.value
    ensures u.title.None? ==> r.title == summary.title
    ensures u.melody.Some? ==> r.melodyInstrument == u.melody.value
    ensures u.melody.None? ==> r.melodyInstrument == summary.melodyInstrument
    ensures u.left.Some? ==> r.leftHandInstrument == u.left.value
    ensures u.left.None? ==> r.leftHandInstrument == summary.leftHandInstrument
    ensures r.updatedAt == now
  {
    summary.(title := if u.title.Some? then u.title.value else summary.title,
             melodyInstrument := if u.melody.Some? then u.melody.value else summary.melodyInstrument,
             leftHandInstrument := if u.left.Some? then u.left.value else summary.leftHandInstrument,
             updatedAt := now)
  }

  /**
   * An update changes the supplied fields and `updatedAt` and nothing else, and the result
   * only names supported instruments.
   */
  lemma ApplyOnlySupplied(raw: Entry, u: Update, now: string)
    requires u.melody.Some? ==> u.melody.value in SupportedInstruments
    requires u.left.Some? ==> u.left.value in SupportedInstruments
    ensures var r := Apply(SummaryFromRaw(raw), u, now);
      && r.(title := raw.title, updatedAt := raw.updatedAt,
            melodyInstrument := raw.melodyInstrument, leftHandInstrument := raw.leftHandInstrument) == raw
      && r.title == (if u.title.Some? then u.title.value else raw.title)
      && r.updatedAt == now
      && (u.melody.Some? ==> r.melodyInstrument == u.melody.value)
      && (u.left.Some? ==> r.leftHandInstrument == u.left.value)
      && r.melodyInstrument in SupportedInstruments && r.leftHandInstrument in SupportedInstruments
  {
  }

  /** After an update the entry is still the first one with its id, at the same position. */
  lemma UpdateKeepsPosition(entries: seq<Entry>, id: string, u: Update, now: string)
    requires FindEntry(entries, id).Some?
    ensures var i := FindEntry(entries, id).value;
      FindEntry(entries[i := Apply(SummaryFromRaw(entries[i]), u, now)], id) == Some(i)
  {
    var i := FindEntry(entries, id).value;
    FindEntryFirst(entries[i := Apply(SummaryFromRaw(entries[i]), u, now)], id, i);
  }

  /** The first position holding the id is the one `FindEntry` finds. */
  lemma FindEntryFirst(entries: seq<Entry>, id: string, i: nat)
    requires i < |entries| && entries[i].id == id
    requires forall k :: 0 <= k < i ==> entries[k].id != id
    ensures FindEntry(entries, id) == Some(i)
  {
    var f := FindEntry(entries, id);
    if f.None? {
      assert false;
    } else if f.value < i {
      assert false;
    } else if f.value > i {
      assert false;
    }
  }

  /** The catalog index: the list `index["entries"]` that the service reads and writes back. */
  class CatalogIndex {
    var entries: seq<Entry>

    /** `_ensure_layout` on an empty catalog: no entries yet. */
    constructor()
      ensures entries == []
    {
      entries := [];
    }

    /**
     * `update_entry`: validate first, then find the entry, then write back its summary with the
     * supplied fields and the new `updatedAt`, at the same position.
     */
    method UpdateEntry(id: string, title: Option<string>, melody: Option<string>, left: Option<string>, now: string)
      returns (r: Result<Entry, CatalogError>)
      modifies this
      ensures ValidateUpdate(title, melody, left).Err? ==>
        r == Err(ValidateUpdate(title, melody, left).error) && entries == old(entries)
      ensures ValidateUpdate(title, melody, left).Ok? && FindEntry(old(entries), id).None? ==>
        r == Err(NotFound(id)) && entries == old(entries)
      ensures r.Ok? <==> ValidateUpdate(title, melody, left).Ok? && FindEntry(old(entries), id).Some?
      ensures r.Ok? ==>
        var i := FindEntry(old(entries), id).value;
        && r.value == Apply(SummaryFromRaw(old(entries)[i]), ValidateUpdate(title, melody, left).value, now)
        && entries == old(entries)[i := r.value]
    {
      var validated := ValidateUpdate(title, melody, left);
      if validated.Err? {
        return Err(validated.error);
      }
      var u := validated.value;
      var found := EntryById(entries, id);
      if found.Err? {
        return Err(found.error);
      }
      var index := found.value.0;
      var summary := SummaryFromRaw(found.value.1);
      if u.title.Some? {
        summary := summary.(title := u.title.value);
      }
      if u.melody.Some? {
        summary := summary.(melodyInstrument := u.melody.value);
      }
      if u.left.Some? {
        summary := summary.(leftHandInstrument := u.left.value);
      }
      summary := summary.(updatedAt := now);
      entries := entries[index := summary];
      r := Ok(summary);
    }

    /** `reset_catalog`: refuse anything but the confirmation token; otherwise empty the index. */
    method ResetCatalog(confirm: string) returns (r: Result<nat, CatalogError>)
      modifies this
      ensures confirm != ResetToken ==> r == Err(Validation(InvalidResetToken)) && entries == old(entries)
      ensures confirm == ResetToken ==> r == Ok(|old(entries)|) && entries == []
    {
      if confirm != ResetToken {
        return Err(Validation(InvalidResetToken));
      }
      var removed := |entries|;
      entries := [];
      r := Ok(removed);
    }
  }

  // ---------------------------------------------------------------------------------------
  // Playback events for records stored without them

  /** `_fallback_playback_events`: the parser's grouping, every event on the right hand, staff 1, voice 1. */
  function FallbackPlaybackEvents(notes: seq<RecognizedNote>): (r: seq<PlaybackEvent>)
    ensures |r| == |GroupKeys(notes)|
    ensures forall e :: e in r ==> e.hand == Right && e.staff == "1" && e.voice == "1"
  {
    EventsLabelled(notes, Right, "1", "1");
    ToPlaybackEvents(notes, Right, "1", "1")
  }

  /** The loops of `_fallback_playback_events`. */
  method FallbackEvents(notes: seq<RecognizedNote>) returns (events: seq<PlaybackEvent>)
    ensures events == FallbackPlaybackEvents(notes)
  {
    events := GroupPlaybackEvents(notes, Right, "1", "1");
  }

  /** Fallback events come in strictly increasing (start, measure) order, one per onset. */
  lemma FallbackOrdered(notes: seq<RecognizedNote>)
    ensures var r := FallbackPlaybackEvents(notes);
      forall i, j :: 0 <= i < j < |r| ==>
        r[i].startBeat < r[j].startBeat
        || (r[i].startBeat == r[j].startBeat && r[i].sourceMeasure < r[j].sourceMeasure)
  {
    PlaybackEventsOrdered(notes, Right, "1", "1");
  }

  /** Every note has the event of its onset. */
  lemma FallbackNoteHasEvent(notes: seq<RecognizedNote>, n: RecognizedNote)
    requires n in notes
    ensures var r := FallbackPlaybackEvents(notes);
      exists i :: 0 <= i < |r| && r[i].startBeat == n.startBeat && r[i].sourceMeasure == n.sourceMeasure
  {
    NoteHasEvent(notes, Right, "1", "1", n);
    assert FallbackPlaybackEvents(notes) == ToPlaybackEvents(notes, Right, "1", "1");
  }

  /** Every event is the onset of some note. */
  lemma FallbackEventHasNote(notes: seq<RecognizedNote>, i: nat)
    requires i < |FallbackPlaybackEvents(notes)|
    ensures var e := FallbackPlaybackEvents(notes)[i];
      exists n :: n in notes && e.startBeat == n.startBeat && e.sourceMeasure == n.sourceMeasure
  {
    EventHasNote(notes, Right, "1", "1", i);
  }

  /** Each fallback event lists its onset's notes by ascending MIDI number, pitches alongside. */
  lemma FallbackEventPitches(notes: seq<RecognizedNote>, i: nat)
    requires i < |FallbackPlaybackEvents(notes)|
    ensures var e := FallbackPlaybackEvents(notes)[i];
      var ms := Members(notes, GroupKey(e.startBeat, e.sourceMeasure));
      && |e.midis| == |e.pitches| == |ms| > 0
      && (forall a, b :: 0 <= a < b < |e.midis| ==> e.midis[a] <= e.midis[b])
      && (exists ordered: seq<RecognizedNote> ::
            && multiset(ordered) == multiset(ms) && |ordered| == |ms|
            && (forall a :: 0 <= a < |ordered| ==> e.midis[a] == ordered[a].midi && e.pitches[a] == ordered[a].pitch))
  {
    PlaybackEventMembers(notes, Right, "1", "1", i);
    var e := ToPlaybackEvents(notes, Right, "1", "1")[i];
    MakeEventPitches(GroupKey(e.startBeat, e.sourceMeasure), Members(notes, GroupKey(e.startBeat, e.sourceMeasure)),
                     Right, "1", "1");
  }

  /** Each fallback event lasts and sounds as long as the longest note of its onset. */
  lemma FallbackEventSpan(notes: seq<RecognizedNote>, i: nat)
    requires i < |FallbackPlaybackEvents(notes)|
    ensures var e := FallbackPlaybackEvents(notes)[i];
      var ms := Members(notes, GroupKey(e.startBeat, e.sourceMeasure));
      && (forall n :: n in ms ==> n.durationBeat <= e.durationBeat && n.gateBeat <= e.gateBeat)
      && (exists n :: n in ms && n.durationBeat == e.durationBeat)
      && (exists n :: n in ms && n.gateBeat == e.gateBeat)
  {
    PlaybackEventMembers(notes, Right, "1", "1", i);
    var e := ToPlaybackEvents(notes, Right, "1", "1")[i];
    MakeEventSpan(GroupKey(e.startBeat, e.sourceMeasure), Members(notes, GroupKey(e.startBeat, e.sourceMeasure)),
                  Right, "1", "1");
  }

  /** `get_entry`: a record without playback events gets the fallback ones. */
  function StoredEvents(stored: seq<PlaybackEvent>, notes: seq<RecognizedNote>): (r: seq<PlaybackEvent>)
    ensures stored != [] ==> r == stored
    ensures stored == [] ==> forall e :: e in r ==> e.hand == Right
  {
    if stored != [] then stored else FallbackPlaybackEvents(notes)
  }

  /** A legacy record with notes but no events gets at least one, all of them on the right hand. */
  lemma LegacyRecordEvents(notes: seq<RecognizedNote>)
    requires notes != []
    ensures var r := StoredEvents([], notes);
      |r| > 0 && forall e :: e in r ==> e.hand == Right && e.staff == "1" && e.voice == "1"
  {
    assert KeyOf(notes[0]) in GroupKeys(notes);
  }
}
