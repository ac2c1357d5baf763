/** `VirtualLineCounter`: counts tracked vehicles whose box centre crosses a
    horizontal line in the image, southbound (moving down, y growing) or
    northbound (moving up). Each track id keeps a short history of its
    vertical centre positions. */
module LineCounter {
  import opened Basics

  /** `max_history`: the positions kept per track. */
  const MaxHistory: nat := 20

  /** The id and the vertical box centre of a tracker row
      `[x1, y1, x2, y2, id, confidence, ...]`, or None when the row is
      skipped: fewer than six fields, or one of the first five fails to
      convert. The coordinates go through `float` and then `int`, which
      truncates; the centre is `(y1 + y2) // 2`. */
  function ParseTrack(track: seq<Field>): (r: Option<(int, int)>)
    ensures r.Some? <==> |track| >= 6 && forall k :: 0 <= k < 5 ==> track[k].Number?
    ensures r.Some? ==> r.value.0 == Truncate(track[4].value)
    ensures r.Some? ==> 2 * r.value.1 <= Truncate(track[1].value) + Truncate(track[3].value) < 2 * r.value.1 + 2
  {
    if |track| < 6 then None
    else if !(track[0].Number? && track[1].Number? && track[2].Number? && track[3].Number? && track[4].Number?) then
      None
    else
      Some((Truncate(track[4].value), HalfFloor(Truncate(track[1].value) + Truncate(track[3].value))))
  }

  /** The counter's `counts` and `track_history`. */
  datatype LineState = LineState(counts: Counts, history: map<int, seq<int>>)

  /** What holds from construction on: both counts exist and every history
      holds between one and `MaxHistory` positions. */
  predicate Good(s: LineState)
  {
    KeyNorth in s.counts && KeySouth in s.counts &&
    forall id :: id in s.history ==> 1 <= |s.history[id]| <= MaxHistory
  }

  function Last(h: seq<int>): int
    requires |h| > 0
  {
    h[|h| - 1]
  }

  /** `h[-max_history:]` when `h` is longer than `max_history`. */
  function Cap(h: seq<int>): (r: seq<int>)
    requires |h| > 0
    ensures 1 <= |r| <= MaxHistory && Last(r) == Last(h)
    ensures |h| <= MaxHistory ==> r == h
    ensures |h| > MaxHistory ==> |r| == MaxHistory && r == h[|h| - |r|..]
  {
    if |h| > MaxHistory then h[|h| - MaxHistory..] else h
  }

  /** One pass of `update`'s loop over the tracks. */
  function TrackStep(s: LineState, lineY: int, track: seq<Field>): (r: LineState)
    requires Good(s)
    ensures Good(r)
  {
    match ParseTrack(track)
    case None => s
    case Some((id, y)) =>
      if id !in s.history then s.(history := s.history[id := [y]])
      else
        var prev := Last(s.history[id]);
        var h := s.history[id] + [y];
        var counts :=
          if |h| > 1 then
            if prev <= lineY && y > lineY then s.counts[KeySouth := s.counts[KeySouth] + 1]
            else if prev >= lineY && y < lineY then s.counts[KeyNorth := s.counts[KeyNorth] + 1]
            else s.counts
          else s.counts;
        LineState(counts, s.history[id := Cap(h)])
  }

  /** The state after the passes over `tracks`, in order. */
  function Updated(s: LineState, lineY: int, tracks: seq<seq<Field>>): (r: LineState)
    requires Good(s)
    ensures Good(r)
    decreases |tracks|
  {
    if tracks == [] then s
    else TrackStep(Updated(s, lineY, tracks[..|tracks| - 1]), lineY, tracks[|tracks| - 1])
  }

  /** The vertical centre of the last well-formed record of `id` in `tracks`. */
  function LastSeen(tracks: seq<seq<Field>>, id: int): (r: Option<int>)
    ensures r.Some? <==> exists i :: 0 <= i < |tracks| && ParseTrack(tracks[i]).Some? && ParseTrack(tracks[i]).value.0 == id
    decreases |tracks|
  {
    if tracks == [] then None
    else
      var p := ParseTrack(tracks[|tracks| - 1]);
      if p.Some? && p.value.0 == id then Some(p.value.1)
      else
        var r := LastSeen(tracks[..|tracks| - 1], id);
        assert forall i :: 0 <= i < |tracks| - 1 ==> tracks[..|tracks| - 1][i] == tracks[i];
        r
  }

  // ---------------------------------------------------------------------
  // Properties

  /** What one record does. A record that is skipped changes nothing. A
      first sighting starts the history with the centre and counts nothing.
      For a known track, with `prev` its last position: south goes up by one
      exactly when `prev <= line_y < y`, north exactly when
      `prev >= line_y > y`, at most one of them moves, and the history gains
      the centre and keeps its last `MaxHistory` entries. In particular the
      `len > 1` test never fails for a known track. */
  lemma TrackStepSpec(s: LineState, lineY: int, track: seq<Field>)
    requires Good(s)
    ensures var r := TrackStep(s, lineY, track);
      var south, north := s.counts[KeySouth], s.counts[KeyNorth];
      r.counts.Keys == s.counts.Keys &&
      (forall k :: k in s.counts && k != KeySouth && k != KeyNorth ==> r.counts[k] == s.counts[k]) &&
      (ParseTrack(track).None? ==> r == s) &&
      (ParseTrack(track).Some? ==>
         var id, y := ParseTrack(track).value.0, ParseTrack(track).value.1;
         (forall other :: other != id ==> (other in r.history <==> other in s.history)) &&
         (forall other :: other != id && other in s.history ==> r.history[other] == s.history[other]) &&
         id in r.history && Last(r.history[id]) == y &&
         (id !in s.history ==> r.history[id] == [y] && r.counts == s.counts) &&
         (id in s.history ==>
            var prev := Last(s.history[id]);
            r.history[id] == Cap(s.history[id] + [y]) &&
            (r.counts[KeySouth] == south + 1 <==> prev <= lineY < y) &&
            (r.counts[KeySouth] != south + 1 ==> r.counts[KeySouth] == south) &&
            (r.counts[KeyNorth] == north + 1 <==> prev >= lineY > y) &&
            (r.counts[KeyNorth] != north + 1 ==> r.counts[KeyNorth] == north) &&
            !(r.counts[KeySouth] != south && r.counts[KeyNorth] != north)))
  {
    var r := TrackStep(s, lineY, track);
    if ParseTrack(track).Some? {
      var id, y := ParseTrack(track).value.0, ParseTrack(track).value.1;
      if id in s.history {
        assert |s.history[id] + [y]| > 1;
        assert Last(s.history[id] + [y]) == y;
      }
    }
  }

  /** Over a whole batch the counters never go down and keep their keys. */
  lemma {:induction false} CountsNeverDecrease(s: LineState, lineY: int, tracks: seq<seq<Field>>)
    requires Good(s)
    ensures var r := Updated(s, lineY, tracks);
      r.counts.Keys == s.counts.Keys && r.counts[KeySouth] >= s.counts[KeySouth] && r.counts[KeyNorth] >= s.counts[KeyNorth]
    decreases |tracks|
  {
    if tracks != [] {
      var prefix := tracks[..|tracks| - 1];
      CountsNeverDecrease(s, lineY, prefix);
      TrackStepSpec(Updated(s, lineY, prefix), lineY, tracks[|tracks| - 1]);
    }
  }

  /** After a batch, the history of a track id that has a well-formed record
      in it ends with the centre of its last such record; the history of any
      other id is exactly as before (and absent if it was absent). Every
      history has at most `MaxHistory` entries. */
  lemma {:induction false} HistoriesAfterBatch(s: LineState, lineY: int, tracks: seq<seq<Field>>, id: int)
    requires Good(s)
    ensures var r := Updated(s, lineY, tracks);
      (LastSeen(tracks, id).Some? ==> id in r.history && Last(r.history[id]) == LastSeen(tracks, id).value) &&
      (LastSeen(tracks, id).None? ==>
         (id in r.history <==> id in s.history) && (id in s.history ==> r.history[id] == s.history[id])) &&
      (id in r.history ==> |r.history[id]| <= MaxHistory)
    decreases |tracks|
  {
    if tracks != [] {
      var prefix := tracks[..|tracks| - 1];
      HistoriesAfterBatch(s, lineY, prefix, id);
      TrackStepSpec(Updated(s, lineY, prefix), lineY, tracks[|tracks| - 1]);
    }
  }

  // ---------------------------------------------------------------------
  // The counter object

  class VirtualLineCounter {
    const lineY: int
    var counts: Counts
    var trackHistory: map<int, seq<int>>
    const maxHistory: nat

    function State(): LineState
      reads this
    {
      LineState(counts, trackHistory)
    }

    ghost predicate Valid()
      reads this
    {
      Good(State()) && maxHistory == MaxHistory
    }

    /** `__init__`: both counts at zero and no history. */
    constructor (lineY: int)
      ensures Valid() && this.lineY == lineY
      ensures counts == map[KeyNorth := 0, KeySouth := 0] && trackHistory == map[]
    {
      this.lineY := lineY;
      counts := map[KeyNorth := 0, KeySouth := 0];
      trackHistory := map[];
      maxHistory := MaxHistory;
    }

    /** `update`: the passes over `tracks`, in order. */
    method Update(tracks: seq<seq<Field>>)
      requires Valid()
      modifies this
      ensures Valid()
      ensures State() == Updated(old(State()), lineY, tracks)
    {
      ghost var s0 := State();
      for i := 0 to |tracks|
        invariant Valid()
        invariant State() == Updated(s0, lineY, tracks[..i])
      {
        assert tracks[..i + 1][..i] == tracks[..i];
        ProcessTrack(tracks[i]);
      }
      assert tracks[..|tracks|] == tracks;
    }

    /** The body of `update`'s loop for one record. */
    method ProcessTrack(track: seq<Field>)
      requires Valid()
      modifies this
      ensures State() == TrackStep(old(State()), lineY, track)
    {
      var parsed := ParseTrack(track);
      if parsed.None? {
        return;
      }
      var trackId, yCenter := parsed.value.0, parsed.value.1;
      if trackId !in trackHistory {
        trackHistory := trackHistory[trackId := [yCenter]];
        return;
      }
      var prevY := Last(trackHistory[trackId]);
      var h := trackHistory[trackId] + [yCenter];
      trackHistory := trackHistory[trackId := h];
      if |h| > 1 {
        if prevY <= lineY && yCenter > lineY {
          counts := counts[KeySouth := counts[KeySouth] + 1];
        } else if prevY >= lineY && yCenter < lineY {
          counts := counts[KeyNorth := counts[KeyNorth] + 1];
        }
      }
      if |h| > maxHistory {
        trackHistory := trackHistory[trackId := h[|h| - maxHistory..]];
      }
      assert trackHistory == old(trackHistory)[trackId := Cap(h)];
    }
  }
}
