/**
  How often a detection keeps firing in the same place: the boxes of one camera view, frame by
  frame, gathered greedily around the first box seen at each place.
 */
module Persistence {
  import opened Boxes
  import opened Sets

  // When two boxes are at the same place.
  type Matching = (Box, Box) -> bool

  // A box's place in the view's frames: frame `frame`, box number `index`.
  datatype Spot = Spot(frame: nat, index: nat)

  datatype Track = Track(seed: Box, seen: set<nat>, members: seq<Spot>)

  predicate InRows(rows: seq<seq<Box>>, spot: Spot) {
    spot.frame < |rows| && spot.index < |rows[spot.frame]|
  }

  function BoxAt(rows: seq<seq<Box>>, spot: Spot): Box
    requires InRows(rows, spot)
  {
    rows[spot.frame][spot.index]
  }

  // ---------- The tracks ----------

  function Started(box: Box, spot: Spot): Track {
    Track(box, {spot.frame}, [spot])
  }

  function Extended(track: Track, spot: Spot): Track {
    track.(seen := track.seen + {spot.frame}, members := track.members + [spot])
  }

  // The first track, from `k` on, whose seed matches the box.
  function FirstMatch(tracks: seq<Track>, box: Box, same: Matching, k: nat): (i: nat)
    requires k <= |tracks|
    ensures k <= i <= |tracks|
    ensures forall j :: k <= j < i ==> !same(tracks[j].seed, box)
    ensures i < |tracks| ==> same(tracks[i].seed, box)
    decreases |tracks| - k
  {
    if k == |tracks| || same(tracks[k].seed, box) then k else FirstMatch(tracks, box, same, k + 1)
  }

  function Placed(tracks: seq<Track>, box: Box, spot: Spot, same: Matching): seq<Track> {
    var i := FirstMatch(tracks, box, same, 0);
    if i < |tracks| then tracks[i := Extended(tracks[i], spot)] else tracks + [Started(box, spot)]
  }

  // The tracks after the first `f` frames and the first `k` boxes of the next.
  function TracksIn(rows: seq<seq<Box>>, f: nat, k: nat, same: Matching): seq<Track>
    requires f <= |rows| && (k == 0 || (f < |rows| && k <= |rows[f]|))
    decreases f, k
  {
    if k > 0 then Placed(TracksIn(rows, f, k - 1, same), rows[f][k - 1], Spot(f, k - 1), same)
    else if f > 0 then TracksIn(rows, f - 1, |rows[f - 1]|, same)
    else []
  }

  function Tracks(rows: seq<seq<Box>>, same: Matching): seq<Track> {
    TracksIn(rows, |rows|, 0, same)
  }

  method PlaceBox(tracks: seq<Track>, box: Box, spot: Spot, same: Matching) returns (placed: seq<Track>)
    ensures placed == Placed(tracks, box, spot, same)
  {
    var k := 0;
    while k < |tracks|
      invariant k <= |tracks| && FirstMatch(tracks, box, same, 0) == FirstMatch(tracks, box, same, k)
    {
      if same(tracks[k].seed, box) {
        return tracks[k := Extended(tracks[k], spot)];
      }
      k := k + 1;
    }
    placed := tracks + [Started(box, spot)];
  }

  method TrackBoxes(rows: seq<seq<Box>>, same: Matching) returns (tracks: seq<Track>)
    ensures tracks == Tracks(rows, same)
  {
    tracks := [];
    for f := 0 to |rows|
      invariant tracks == TracksIn(rows, f, 0, same)
    {
      for k := 0 to |rows[f]|
        invariant tracks == TracksIn(rows, f, k, same)
      {
        tracks := PlaceBox(tracks, rows[f][k], Spot(f, k), same);
      }
    }
  }

  // ---------- What a track is ----------

  function FramesOf(members: seq<Spot>): set<nat> {
    set i | 0 <= i < |members| :: members[i].frame
  }

  // One track after these: led by its seed, which its other members match; no member matches an
  // earlier seed.
  predicate IsTrack(track: Track, earlier: seq<Track>, rows: seq<seq<Box>>, same: Matching) {
    && track.members != [] && track.seen == FramesOf(track.members)
    && (forall i :: 0 <= i < |track.members| ==> InRows(rows, track.members[i]))
    && BoxAt(rows, track.members[0]) == track.seed
    && (forall i :: 0 < i < |track.members| ==> same(track.seed, BoxAt(rows, track.members[i])))
    && (forall i, j :: 0 <= i < |track.members| && 0 <= j < |earlier| ==>
          !same(earlier[j].seed, BoxAt(rows, track.members[i])))
  }

  predicate AreTracks(tracks: seq<Track>, rows: seq<seq<Box>>, same: Matching) {
    forall t :: 0 <= t < |tracks| ==> IsTrack(tracks[t], tracks[..t], rows, same)
  }

  lemma FramesAfter(members: seq<Spot>, spot: Spot)
    ensures FramesOf(members + [spot]) == FramesOf(members) + {spot.frame}
  {
    var after := members + [spot];
    assert forall i :: 0 <= i < |members| ==> after[i] == members[i];
    assert after[|members|] == spot;
  }

  lemma ExtendedIsTrack(track: Track, earlier: seq<Track>, rows: seq<seq<Box>>, spot: Spot, same: Matching)
    requires IsTrack(track, earlier, rows, same) && InRows(rows, spot) && same(track.seed, BoxAt(rows, spot))
    requires forall j :: 0 <= j < |earlier| ==> !same(earlier[j].seed, BoxAt(rows, spot))
    ensures IsTrack(Extended(track, spot), earlier, rows, same)
  {
    FramesAfter(track.members, spot);
  }

  lemma SeedsDecide(track: Track, a: seq<Track>, b: seq<Track>, rows: seq<seq<Box>>, same: Matching)
    requires IsTrack(track, a, rows, same) && |a| == |b| && forall j :: 0 <= j < |a| ==> a[j].seed == b[j].seed
    ensures IsTrack(track, b, rows, same)
  {
  }

  lemma PlacedAreTracks(tracks: seq<Track>, rows: seq<seq<Box>>, spot: Spot, same: Matching)
    requires AreTracks(tracks, rows, same) && InRows(rows, spot)
    ensures AreTracks(Placed(tracks, BoxAt(rows, spot), spot, same), rows, same)
  {
    var box := BoxAt(rows, spot);
    var after, i := Placed(tracks, box, spot, same), FirstMatch(tracks, box, same, 0);
    if i < |tracks| {
      ExtendedIsTrack(tracks[i], tracks[..i], rows, spot, same);
    } else {
      assert after[..i] == tracks && [] + [spot] == [spot];
      FramesAfter([], spot);
      assert IsTrack(Started(box, spot), tracks, rows, same);
    }
    forall t | 0 <= t < |after| ensures IsTrack(after[t], after[..t], rows, same) {
      SeedsDecide(after[t], tracks[..t], after[..t], rows, same);
    }
  }

  lemma {:induction false} TracksAreTracks(rows: seq<seq<Box>>, f: nat, k: nat, same: Matching)
    requires f <= |rows| && (k == 0 || (f < |rows| && k <= |rows[f]|))
    ensures AreTracks(TracksIn(rows, f, k, same), rows, same)
    decreases f, k
  {
    if k > 0 {
      TracksAreTracks(rows, f, k - 1, same);
      PlacedAreTracks(TracksIn(rows, f, k - 1, same), rows, Spot(f, k - 1), same);
    } else if f > 0 {
      TracksAreTracks(rows, f - 1, |rows[f - 1]|, same);
    }
  }

  // ---------- Every box is in exactly one track ----------

  function AllMembers(tracks: seq<Track>): multiset<Spot> {
    if tracks == [] then multiset{} else AllMembers(tracks[..|tracks| - 1]) + multiset(tracks[|tracks| - 1].members)
  }

  lemma {:induction false} MembersAfterExtending(tracks: seq<Track>, i: nat, spot: Spot)
    requires i < |tracks|
    ensures AllMembers(tracks[i := Extended(tracks[i], spot)]) == AllMembers(tracks) + multiset{spot}
  {
    var n := |tracks| - 1;
    var after := tracks[i := Extended(tracks[i], spot)];
    if i == n {
      assert after[..n] == tracks[..n];
    } else {
      assert after[..n] == tracks[..n][i := Extended(tracks[i], spot)];
      MembersAfterExtending(tracks[..n], i, spot);
    }
  }

  lemma {:induction false} PlacedMembers(tracks: seq<Track>, box: Box, spot: Spot, same: Matching)
    ensures AllMembers(Placed(tracks, box, spot, same)) == AllMembers(tracks) + multiset{spot}
  {
    var after, i := Placed(tracks, box, spot, same), FirstMatch(tracks, box, same, 0);
    if i < |tracks| {
      MembersAfterExtending(tracks, i, spot);
    } else {
      assert after[..|tracks|] == tracks;
    }
  }

  predicate Before(rows: seq<seq<Box>>, f: nat, k: nat, spot: Spot) {
    InRows(rows, spot) && (spot.frame < f || (spot.frame == f && spot.index < k))
  }

  lemma {:induction false} OneTrackPerBox(rows: seq<seq<Box>>, f: nat, k: nat, same: Matching, spot: Spot)
    requires f <= |rows| && (k == 0 || (f < |rows| && k <= |rows[f]|))
    ensures AllMembers(TracksIn(rows, f, k, same))[spot] == if Before(rows, f, k, spot) then 1 else 0
    decreases f, k
  {
    if k > 0 {
      OneTrackPerBox(rows, f, k - 1, same, spot);
      PlacedMembers(TracksIn(rows, f, k - 1, same), rows[f][k - 1], Spot(f, k - 1), same);
    } else if f > 0 {
      OneTrackPerBox(rows, f - 1, |rows[f - 1]|, same, spot);
    }
  }

  // Every box of the frames is in exactly one track, once; a track's boxes after the first match
  // its first, and none matches the first box of an earlier track.
  lemma TracksPartition(rows: seq<seq<Box>>, same: Matching)
    ensures AreTracks(Tracks(rows, same), rows, same)
    ensures forall spot :: AllMembers(Tracks(rows, same))[spot] == if InRows(rows, spot) then 1 else 0
  {
    TracksAreTracks(rows, |rows|, 0, same);
    forall spot ensures AllMembers(Tracks(rows, same))[spot] == if InRows(rows, spot) then 1 else 0 {
      OneTrackPerBox(rows, |rows|, 0, same, spot);
    }
  }

  // ---------- The share of the frames ----------

  // The track a box is in.
  function TrackOf(tracks: seq<Track>, spot: Spot): (t: nat)
    ensures t <= |tracks|
    ensures t < |tracks| ==> spot in tracks[t].members
    ensures t < |tracks| <==> spot in AllMembers(tracks)
  {
    if tracks == [] then 0 else
      var n := |tracks| - 1;
      var t := TrackOf(tracks[..n], spot);
      if t < n then t else if spot in tracks[n].members then n else n + 1
  }

  lemma {:induction false} OnlyTrack(tracks: seq<Track>, spot: Spot, t: nat)
    requires t < |tracks| && spot in tracks[t].members && AllMembers(tracks)[spot] == 1
    ensures TrackOf(tracks, spot) == t
  {
    var n := |tracks| - 1;
    if t < n {
      InAll(tracks[..n], spot, t);
      OnlyTrack(tracks[..n], spot, t);
    } else {
      assert multiset(tracks[n].members)[spot] >= 1;
    }
  }

  lemma {:induction false} InAll(tracks: seq<Track>, spot: Spot, t: nat)
    requires t < |tracks| && spot in tracks[t].members
    ensures spot in AllMembers(tracks)
  {
    if t < |tracks| - 1 {
      InAll(tracks[..|tracks| - 1], spot, t);
    }
  }

  function Share(track: Track, frames: nat): real {
    |track.seen| as real / (if frames > 1 then frames else 1) as real
  }

  function Shares(tracks: seq<Track>, frames: nat): (r: seq<real>)
    ensures |r| == |tracks|
  {
    seq(|tracks|, t requires 0 <= t < |tracks| => Share(tracks[t], frames))
  }

  // The share of a box's track: zero when it is in no track.
  function ShareOf(tracks: seq<Track>, shares: seq<real>, spot: Spot): real
    requires |shares| == |tracks|
  {
    var t := TrackOf(tracks, spot);
    if t < |tracks| then shares[t] else 0.0
  }

  function Coverage(rows: seq<seq<Box>>, same: Matching, spot: Spot): real {
    var tracks := Tracks(rows, same);
    ShareOf(tracks, Shares(tracks, |rows|), spot)
  }

  method CoverMembers(before: map<Spot, real>, members: seq<Spot>, share: real) returns (coverage: map<Spot, real>)
    ensures forall spot :: spot in coverage <==> spot in before || spot in members
    ensures forall spot :: spot in coverage ==>
              coverage[spot] == if spot in members then share else before[spot]
  {
    coverage := before;
    for m := 0 to |members|
      invariant forall spot :: spot in coverage <==> spot in before || spot in members[..m]
      invariant forall spot :: spot in coverage ==>
                  coverage[spot] == if spot in members[..m] then share else before[spot]
    {
      coverage := coverage[members[m] := share];
    }
    assert members[..|members|] == members;
  }

  method CoverTracks(tracks: seq<Track>, shares: seq<real>) returns (coverage: map<Spot, real>)
    requires |shares| == |tracks| && forall spot :: AllMembers(tracks)[spot] <= 1
    ensures forall spot :: spot in coverage <==> spot in AllMembers(tracks)
    ensures forall spot :: spot in coverage ==> coverage[spot] == ShareOf(tracks, shares, spot)
  {
    coverage := map[];
    for t := 0 to |tracks|
      invariant forall spot :: spot in coverage <==> spot in AllMembers(tracks[..t])
      invariant forall spot :: spot in coverage ==> coverage[spot] == ShareOf(tracks, shares, spot)
    {
      assert tracks[..t + 1][..t] == tracks[..t];
      forall spot | spot in tracks[t].members ensures TrackOf(tracks, spot) == t {
        InAll(tracks, spot, t);
        OnlyTrack(tracks, spot, t);
      }
      coverage := CoverMembers(coverage, tracks[t].members, shares[t]);
    }
    assert tracks[..|tracks|] == tracks;
  }

  method Coverages(rows: seq<seq<Box>>, same: Matching) returns (coverage: map<Spot, real>)
    ensures forall spot :: spot in coverage <==> InRows(rows, spot)
    ensures forall spot :: spot in coverage ==> coverage[spot] == Coverage(rows, same, spot)
  {
    var tracks := TrackBoxes(rows, same);
    TracksPartition(rows, same);
    coverage := CoverTracks(tracks, Shares(tracks, |rows|));
  }

  lemma ShareInUnit(track: Track, frames: nat)
    requires 1 <= |track.seen| <= frames
    ensures 0.0 < Share(track, frames) <= 1.0 && Share(track, frames) * frames as real == |track.seen| as real
  {
    PositiveQuotient(|track.seen| as real, frames as real);
  }

  lemma PositiveQuotient(a: real, b: real)
    requires 0.0 < a <= b
    ensures 0.0 < a / b <= 1.0 && (a / b) * b == a
  {
  }

  lemma TrackFrames(rows: seq<seq<Box>>, same: Matching, t: nat)
    requires t < |Tracks(rows, same)|
    ensures var track := Tracks(rows, same)[t]; track.seen == FramesOf(track.members) && 1 <= |track.seen| <= |rows|
  {
    TracksPartition(rows, same);
    var tracks := Tracks(rows, same);
    var track := tracks[t];
    assert IsTrack(track, tracks[..t], rows, same);
    assert track.members[0].frame in track.seen;
    SmallSet(track.seen, |rows|);
  }

  lemma {:induction false} CoverageIsShare(rows: seq<seq<Box>>, same: Matching, spot: Spot)
    requires InRows(rows, spot)
    ensures var tracks := Tracks(rows, same);
            TrackOf(tracks, spot) < |tracks| &&
                Coverage(rows, same, spot) == Share(tracks[TrackOf(tracks, spot)], |rows|)
  {
    TracksPartition(rows, same);
  }

  // A box's coverage is above 0 and at most 1: the number of distinct frames among the boxes of its
  // track, itself included, over the number of frames.
  lemma {:induction false} CoverageInUnit(rows: seq<seq<Box>>, same: Matching, spot: Spot)
    requires InRows(rows, spot)
    ensures TrackOf(Tracks(rows, same), spot) < |Tracks(rows, same)|
    ensures var track := Tracks(rows, same)[TrackOf(Tracks(rows, same), spot)];
            && spot in track.members && track.seen == FramesOf(track.members)
            && Coverage(rows, same, spot) * |rows| as real == |track.seen| as real
    ensures 0.0 < Coverage(rows, same, spot) <= 1.0
  {
    CoverageIsShare(rows, same, spot);
    var track := Tracks(rows, same)[TrackOf(Tracks(rows, same), spot)];
    TrackFrames(rows, same, TrackOf(Tracks(rows, same), spot));
    ShareInUnit(track, |rows|);
  }
}
