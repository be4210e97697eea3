/** The per-file report of `yield_terminal_output`: the track counts of `get_tracks_count`, the number
    of tracks flagged default, and the "Pass" / "Check tracks" verdict. */
module Summary {
  import Seqs
  import opened Tracks
  import opened Flags

  predicate IsAudio(t: TrackInfo) { t.kind == Audio }
  predicate IsSubtitle(t: TrackInfo) { t.kind == Subtitles }
  predicate IsFlagged(t: TrackInfo) { t.isDefault == 1 }

  /** `get_tracks_count`: the lengths of the audio and of the subtitle sub-lists. */
  function TracksCount(ts: seq<TrackInfo>): (c: (nat, nat))
    ensures c.0 + c.1 <= |ts|
  {
    KindsDisjoint(ts);
    (|Seqs.Filter(ts, IsAudio)|, |Seqs.Filter(ts, IsSubtitle)|)
  }

  /** No track is both an audio and a subtitle track, so the two sub-lists together are no longer than the list. */
  lemma {:induction false} KindsDisjoint(ts: seq<TrackInfo>)
    ensures |Seqs.Filter(ts, IsAudio)| + |Seqs.Filter(ts, IsSubtitle)| <= |ts|
  {
    if ts != [] {
      KindsDisjoint(ts[1..]);
    }
  }

  /** On a listing that holds only audio and subtitle tracks, the two counts add up to its length. */
  lemma {:induction false} CountsCoverListing(ts: seq<TrackInfo>)
    requires forall i :: 0 <= i < |ts| ==> ts[i].kind == Audio || ts[i].kind == Subtitles
    ensures TracksCount(ts).0 + TracksCount(ts).1 == |ts|
  {
    if ts != [] {
      CountsCoverListing(ts[1..]);
    }
  }

  /** The running total `flag_count` after adding up `isDefault` over `ts`. */
  function SumDefault(ts: seq<TrackInfo>): (total: int)
    ensures (forall i :: 0 <= i < |ts| ==> ts[i].isDefault in {0, 1}) ==> 0 <= total <= |ts|
  {
    if ts == [] then 0 else SumDefault(ts[..|ts| - 1]) + ts[|ts| - 1].isDefault
  }

  /** With 0/1 flags the total is the number of tracks flagged default. */
  lemma {:induction false} SumDefaultCountsFlagged(ts: seq<TrackInfo>)
    requires forall i :: 0 <= i < |ts| ==> ts[i].isDefault in {0, 1}
    ensures SumDefault(ts) == |Seqs.Filter(ts, IsFlagged)|
  {
    if ts != [] {
      var init, last := ts[..|ts| - 1], ts[|ts| - 1];
      assert ts == init + [last];
      SumDefaultCountsFlagged(init);
      Seqs.FilterConcat(init, [last], IsFlagged);
      assert [last][1..] == [];
    }
  }

  /** After the heuristics, the total is the number of Japanese audio and English dialogue subtitle tracks. */
  lemma {:induction false} FlagCountIsPreferredCount(ts: seq<TrackInfo>)
    requires forall i :: 0 <= i < |ts| ==> ts[i].kind == Audio || ts[i].kind == Subtitles
    ensures SumDefault(DispatchAll(ts)) == |Seqs.Filter(ts, IsPreferred)|
  {
    if ts != [] {
      var init, last := ts[..|ts| - 1], ts[|ts| - 1];
      assert ts == init + [last];
      assert DispatchAll(ts)[..|ts| - 1] == DispatchAll(init);
      FlagCountIsPreferredCount(init);
      Seqs.FilterConcat(init, [last], IsPreferred);
      assert [last][1..] == [];
    }
  }

  /** Python's `s * n` for a string and an integer: `n` copies, none when `n <= 0`. */
  function Repeat(s: string, n: int): (r: string)
    ensures n <= 0 ==> r == []
    ensures n == 1 ==> r == s
    decreases n
  {
    if n <= 0 then [] else s + Repeat(s, n - 1)
  }

  const Pass := "Pass"
  const CheckTracks := "Check tracks"

  /** `status_message`, built as the source builds it, from string repetition by the 0/1 status. */
  function StatusMessage(flagCount: int): (m: string)
    ensures flagCount >= 2 ==> m == Pass + "\n"
    ensures flagCount < 2 ==> m == CheckTracks + "\n"
  {
    var status := if flagCount >= 2 then 1 else 0;
    Repeat(CheckTracks, 1 - status) + Repeat(Pass, status) + "\n"
  }

  /** The counting part of `yield_terminal_output`: the two counts, the accumulated `flag_count`
      and the status message. */
  method YieldTerminalOutput(tracks: seq<Track>)
    returns (audioCount: nat, subCount: nat, flagCount: int, statusMessage: string)
    ensures (audioCount, subCount) == TracksCount(Values(tracks))
    ensures flagCount == SumDefault(Values(tracks))
    ensures statusMessage == StatusMessage(flagCount)
  {
    audioCount, subCount := |Seqs.Filter(Values(tracks), IsAudio)|, |Seqs.Filter(Values(tracks), IsSubtitle)|;
    flagCount := 0;
    for i := 0 to |tracks|
      invariant flagCount == SumDefault(Values(tracks)[..i])
    {
      assert Values(tracks)[..i + 1][..i] == Values(tracks)[..i];
      flagCount := flagCount + tracks[i].isDefault;
    }
    assert Values(tracks)[..|tracks|] == Values(tracks);
    var status := if flagCount >= 2 then 1 else 0;
    statusMessage := Repeat(CheckTracks, 1 - status) + Repeat(Pass, status) + "\n";
  }
}
