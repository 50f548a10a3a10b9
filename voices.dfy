/**
 * Per-(staff, voice) statistics and the lead-voice choice (`VoiceStats`, `_choose_lead_voice`,
 * `_choose_voice_in_staff`). The statistics are a Python dict, which keeps insertion order;
 * here it is a sequence of entries whose keys are pairwise distinct.
 */
module Voices {
  import opened Wrappers
  import opened Text

  datatype VoiceKey = VoiceKey(staff: string, voice: string)

  datatype VoiceStats = VoiceStats(key: VoiceKey, count: nat, pitchSum: int)

  /** `avg_pitch`: the mean MIDI number, 0 for an empty entry. */
  function AvgPitch(v: VoiceStats): real
  {
    if v.count == 0 then 0.0 else v.pitchSum as real / v.count as real
  }

  /** The sort key `(-count, -avg_pitch, staff, voice)` of `a` is smaller than that of `b`. */
  predicate RanksBefore(a: VoiceStats, b: VoiceStats)
  {
    || a.count > b.count
    || (a.count == b.count && AvgPitch(a) > AvgPitch(b))
    || (a.count == b.count && AvgPitch(a) == AvgPitch(b) && StrLess(a.key.staff, b.key.staff))
    || (a.count == b.count && AvgPitch(a) == AvgPitch(b) && a.key.staff == b.key.staff
        && StrLess(a.key.voice, b.key.voice))
  }

  lemma RanksBeforeIrreflexive(a: VoiceStats)
    ensures !RanksBefore(a, a)
  {
    StrLessIrreflexive(a.key.staff);
    StrLessIrreflexive(a.key.voice);
  }

  lemma RanksBeforeTrans(a: VoiceStats, b: VoiceStats, c: VoiceStats)
    requires RanksBefore(a, b) && RanksBefore(b, c)
    ensures RanksBefore(a, c)
  {
    if a.count == b.count == c.count && AvgPitch(a) == AvgPitch(b) == AvgPitch(c) {
      if StrLess(a.key.staff, b.key.staff) && StrLess(b.key.staff, c.key.staff) {
        StrLessTrans(a.key.staff, b.key.staff, c.key.staff);
      } else if a.key.staff == b.key.staff == c.key.staff {
        StrLessTrans(a.key.voice, b.key.voice, c.key.voice);
      }
    }
  }

  /** Entries with different keys are always ranked one way or the other: no ties. */
  lemma RanksBeforeTotal(a: VoiceStats, b: VoiceStats)
    requires a.key != b.key
    ensures RanksBefore(a, b) || RanksBefore(b, a)
  {
    if a.key.staff != b.key.staff {
      StrLessTotal(a.key.staff, b.key.staff);
    } else {
      StrLessTotal(a.key.voice, b.key.voice);
    }
  }

  /** Some entry of `stats` has `key`. */
  predicate HasKey(stats: seq<VoiceStats>, key: VoiceKey)
  {
    stats != [] && (stats[0].key == key || HasKey(stats[1..], key))
  }

  /** No key occurs twice, as in a dict. */
  predicate DistinctKeys(stats: seq<VoiceStats>)
  {
    stats == [] || (!HasKey(stats[1..], stats[0].key) && DistinctKeys(stats[1..]))
  }

  /** `sorted(stats.items(), key=...)[0]`: an entry no other entry ranks before. */
  function BestEntry(stats: seq<VoiceStats>): (r: VoiceStats)
    requires |stats| > 0
    ensures r in stats
    ensures forall j :: 0 <= j < |stats| ==> !RanksBefore(stats[j], r)
  {
    if |stats| == 1 then
      RanksBeforeIrreflexive(stats[0]);
      stats[0]
    else
      var rest := BestEntry(stats[1..]);
      assert forall j :: 1 <= j < |stats| ==> stats[j] == stats[1..][j - 1];
      if RanksBefore(stats[0], rest) then
        RanksBeforeIrreflexive(stats[0]);
        assert forall j :: 1 <= j < |stats| ==> !RanksBefore(stats[j], stats[0]) by {
          forall j | 1 <= j < |stats| && RanksBefore(stats[j], stats[0])
            ensures false
          {
            RanksBeforeTrans(stats[j], stats[0], rest);
          }
        }
        stats[0]
      else
        rest
  }

  /** The best entry ranks strictly before every entry with another key: the choice has no ties. */
  lemma BestEntryUnique(stats: seq<VoiceStats>)
    requires |stats| > 0
    ensures forall j :: 0 <= j < |stats| && stats[j].key != BestEntry(stats).key ==>
      RanksBefore(BestEntry(stats), stats[j])
  {
    var r := BestEntry(stats);
    forall j | 0 <= j < |stats| && stats[j].key != r.key
      ensures RanksBefore(r, stats[j])
    {
      RanksBeforeTotal(r, stats[j]);
    }
  }

  /** `_choose_lead_voice`: `None` exactly for empty statistics, else the best-ranked key. */
  function ChooseLeadVoice(stats: seq<VoiceStats>): (r: Option<VoiceKey>)
    ensures r.None? <==> |stats| == 0
    ensures r.Some? ==>
      exists i :: 0 <= i < |stats| && stats[i].key == r.value &&
        (forall j :: 0 <= j < |stats| ==> !RanksBefore(stats[j], stats[i]))
  {
    if |stats| == 0 then None
    else
      var best := BestEntry(stats);
      var i :| 0 <= i < |stats| && stats[i] == best;
      Some(best.key)
  }

  /** The entries on one staff, in their original order (the dict comprehension `scoped`). */
  function InStaff(stats: seq<VoiceStats>, staff: string): (r: seq<VoiceStats>)
    ensures forall v :: v in r <==> v in stats && v.key.staff == staff
    ensures forall k :: HasKey(r, k) ==> HasKey(stats, k)
    ensures DistinctKeys(stats) ==> DistinctKeys(r)
  {
    if stats == [] then []
    else
      var rest := InStaff(stats[1..], staff);
      assert forall v :: v in stats <==> v == stats[0] || v in stats[1..];
      if stats[0].key.staff == staff then
        var r := [stats[0]] + rest;
        assert r[1..] == rest;
        r
      else rest
  }

  /** `_choose_voice_in_staff`: the best key among those on `staff`, never one on another staff. */
  function ChooseVoiceInStaff(stats: seq<VoiceStats>, staff: string): (r: Option<VoiceKey>)
    ensures r.Some? ==> r.value.staff == staff
    ensures r.None? <==> forall i :: 0 <= i < |stats| ==> stats[i].key.staff != staff
    ensures r.Some? ==>
      exists v :: v in stats && v.key == r.value &&
        (forall w :: w in stats && w.key.staff == staff ==> !RanksBefore(w, v))
  {
    var scoped := InStaff(stats, staff);
    var r := ChooseLeadVoice(scoped);
    assert r.None? <==> forall i :: 0 <= i < |stats| ==> stats[i].key.staff != staff by {
      if r.None? {
        forall i | 0 <= i < |stats| ensures stats[i].key.staff != staff {
          assert stats[i] in stats;
        }
      } else {
        assert scoped[0] in stats;
      }
    }
    if r.Some? then
      var i :| 0 <= i < |scoped| && scoped[i].key == r.value
        && (forall j :: 0 <= j < |scoped| ==> !RanksBefore(scoped[j], scoped[i]));
      assert scoped[i] in stats;
      assert forall w :: w in stats && w.key.staff == staff ==> !RanksBefore(w, scoped[i]) by {
        forall w | w in stats && w.key.staff == staff ensures !RanksBefore(w, scoped[i]) {
          assert w in scoped;
          var j :| 0 <= j < |scoped| && scoped[j] == w;
        }
      }
      r
    else r
  }

  /** Number of notes recorded for `key` (0 when absent). */
  function CountOf(stats: seq<VoiceStats>, key: VoiceKey): nat
  {
    if stats == [] then 0
    else if stats[0].key == key then stats[0].count
    else CountOf(stats[1..], key)
  }

  /** Sum of MIDI numbers recorded for `key` (0 when absent). */
  function SumOf(stats: seq<VoiceStats>, key: VoiceKey): int
  {
    if stats == [] then 0
    else if stats[0].key == key then stats[0].pitchSum
    else SumOf(stats[1..], key)
  }

  /**
   * `voice_stats.setdefault(key, VoiceStats())` followed by `count += 1` and
   * `pitch_sum += midi`: updates the entry in place, or appends a new one.
   */
  function Record(stats: seq<VoiceStats>, key: VoiceKey, midi: int): (r: seq<VoiceStats>)
    ensures forall k :: HasKey(r, k) <==> HasKey(stats, k) || k == key
    ensures forall k :: CountOf(r, k) == CountOf(stats, k) + (if k == key then 1 else 0)
    ensures forall k :: SumOf(r, k) == SumOf(stats, k) + (if k == key then midi else 0)
    ensures DistinctKeys(stats) ==> DistinctKeys(r)
  {
    if stats == [] then
      var r := [VoiceStats(key, 1, midi)];
      assert r[1..] == [];
      r
    else if stats[0].key == key then
      var r := [stats[0].(count := stats[0].count + 1, pitchSum := stats[0].pitchSum + midi)] + stats[1..];
      assert r[1..] == stats[1..];
      r
    else
      var rest := Record(stats[1..], key, midi);
      var r := [stats[0]] + rest;
      assert r[1..] == rest;
      r
  }
}
