/**
 * The pure part of the web player: which playback events a mode plays, and which of the two
 * chosen instruments plays an event's hand.
 */
module Player {
  import opened Playback

  /** `PlaybackMode`: both hands, or one of them. */
  datatype PlaybackMode = Both | Only(hand: Hand)

  /** `events.filter((event) => event.hand === hand)`. */
  function OfHand(events: seq<PlaybackEvent>, hand: Hand): (r: seq<PlaybackEvent>)
    ensures |r| <= |events|
    ensures forall e :: e in r <==> e in events && e.hand == hand
    decreases |events|
  {
    if events == [] then []
    else (if events[0].hand == hand then [events[0]] else []) + OfHand(events[1..], hand)
  }

  /** `filterPlaybackEvents`: everything for `'both'`, otherwise the events of that hand. */
  function FilterPlaybackEvents(events: seq<PlaybackEvent>, mode: PlaybackMode): (r: seq<PlaybackEvent>)
    ensures mode.Both? ==> r == events
    ensures mode.Only? ==> forall e :: e in r <==> e in events && e.hand == mode.hand
  {
    if mode.Both? then events else OfHand(events, mode.hand)
  }

  /** Filtering distributes over concatenation, so the input's relative order is kept. */
  lemma {:induction false} OfHandAppend(a: seq<PlaybackEvent>, b: seq<PlaybackEvent>, hand: Hand)
    ensures OfHand(a + b, hand) == OfHand(a, hand) + OfHand(b, hand)
    decreases |a|
  {
    if a == [] {
      assert a + b == b;
    } else {
      assert (a + b)[0] == a[0];
      assert (a + b)[1..] == a[1..] + b;
      OfHandAppend(a[1..], b, hand);
    }
  }

  /** Events of one hand are kept as a whole; the filter leaves a list of one hand alone. */
  lemma {:induction false} OfHandKeepsAll(events: seq<PlaybackEvent>, hand: Hand)
    ensures OfHand(events, hand) == events <==> forall i :: 0 <= i < |events| ==> events[i].hand == hand
    decreases |events|
  {
    if events != [] {
      OfHandKeepsAll(events[1..], hand);
      if events[0].hand != hand {
        assert |OfHand(events, hand)| < |events|;
      } else {
        assert forall i :: 1 <= i < |events| ==> events[i] == events[1..][i - 1];
      }
    }
  }

  /** The right-hand and the left-hand results together are the input, counted with multiplicity. */
  lemma {:induction false} HandsPartition(events: seq<PlaybackEvent>)
    ensures multiset(FilterPlaybackEvents(events, Only(Right))) + multiset(FilterPlaybackEvents(events, Only(Left)))
         == multiset(events)
    decreases |events|
  {
    if events != [] {
      HandsPartition(events[1..]);
      assert events == [events[0]] + events[1..];
    }
  }

  /** Filtering twice by the same mode is filtering once. */
  lemma FilterIdempotent(events: seq<PlaybackEvent>, mode: PlaybackMode)
    ensures FilterPlaybackEvents(FilterPlaybackEvents(events, mode), mode) == FilterPlaybackEvents(events, mode)
  {
    if mode.Only? {
      var r := OfHand(events, mode.hand);
      assert forall i :: 0 <= i < |r| ==> r[i] in r;
      OfHandKeepsAll(r, mode.hand);
    }
  }

  /** `resolveHandInstrument`: the left hand plays the left-hand instrument, anything else the melody one. */
  function ResolveHandInstrument(hand: Hand, melodyInstrument: string, leftHandInstrument: string): (r: string)
    ensures r == melodyInstrument || r == leftHandInstrument
    ensures melodyInstrument != leftHandInstrument ==> (r == leftHandInstrument <==> hand == Left)
    ensures melodyInstrument != leftHandInstrument ==> (r == melodyInstrument <==> hand.Right?)
  {
    if hand == Left then leftHandInstrument else melodyInstrument
  }

  /**
   * The instruments `playScore` loads for a one-hand mode: the left-hand instrument alone for
   * `'left'`, the melody instrument alone for `'right'`.
   */
  lemma RequiredInstruments(events: seq<PlaybackEvent>, mode: PlaybackMode, melodyInstrument: string,
                            leftHandInstrument: string)
    ensures mode == Only(Left) ==> forall e :: e in FilterPlaybackEvents(events, mode) ==>
      ResolveHandInstrument(e.hand, melodyInstrument, leftHandInstrument) == leftHandInstrument
    ensures mode == Only(Right) ==> forall e :: e in FilterPlaybackEvents(events, mode) ==>
      ResolveHandInstrument(e.hand, melodyInstrument, leftHandInstrument) == melodyInstrument
  {
  }
}
