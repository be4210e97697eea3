/** The flag heuristics: which audio and subtitle tracks become "default" and "forced"
    (`set_audio_track_flag`, `set_sub_track_flag` and the per-track dispatch of `change_flags`). */
module Flags {
  import opened Text
  import opened Tracks

  const Japanese := "jpn"
  const English := "eng"
  /** Substrings of a lower-cased subtitle name that mark a full dialogue track. */
  const DialogueKeywords: seq<string> := ["dialog", "full", "english"]
  /** Substrings of a lower-cased subtitle name that mark a signs-and-songs track. */
  const LyricsKeywords: seq<string> := ["sign", "song", "s&s"]

  predicate IsDialogueName(name: string) {
    AnyContains(Lower(name), DialogueKeywords)
  }

  predicate IsLyricsName(name: string) {
    AnyContains(Lower(name), LyricsKeywords)
  }

  /** `t` and `r` agree on every field except the two flags. */
  predicate SameButFlags(r: TrackInfo, t: TrackInfo) {
    r.(isDefault := t.isDefault, isForced := t.isForced) == t
  }

  /** The audio rule: both flags are 1 exactly for Japanese audio, whatever they were before. */
  function AudioRule(t: TrackInfo): (r: TrackInfo)
    ensures SameButFlags(r, t)
    ensures r.isDefault == r.isForced
    ensures r.isDefault in {0, 1}
    ensures r.isDefault == 1 <==> t.language == Japanese
  {
    var flag := if t.language == Japanese then 1 else 0;
    t.(isDefault := flag, isForced := flag)
  }

  /** The subtitle rule: both flags are 1 exactly for English subtitles whose lower-cased name contains a
      dialogue keyword and no lyrics keyword, whatever they were before. */
  function SubtitleRule(t: TrackInfo): (r: TrackInfo)
    ensures SameButFlags(r, t)
    ensures r.isDefault == r.isForced
    ensures r.isDefault in {0, 1}
    ensures t.language != English ==> r.isDefault == 0
    ensures r.isDefault == 1 <==>
      t.language == English &&
      (exists k :: 0 <= k < |DialogueKeywords| && IsInfix(DialogueKeywords[k], Lower(t.name))) &&
      !(exists k :: 0 <= k < |LyricsKeywords| && IsInfix(LyricsKeywords[k], Lower(t.name)))
  {
    var flag := if t.language == English && IsDialogueName(t.name) && !IsLyricsName(t.name) then 1 else 0;
    t.(isDefault := flag, isForced := flag)
  }

  /** A track that the heuristics mark as default: Japanese audio or English dialogue subtitles. */
  predicate IsPreferred(t: TrackInfo) {
    (t.kind == Audio && t.language == Japanese) ||
    (t.kind == Subtitles && t.language == English && IsDialogueName(t.name) && !IsLyricsName(t.name))
  }

  /** The body of the loop in `change_flags`: the audio rule for audio tracks, the subtitle rule for
      subtitle tracks, and nothing for any other kind. */
  function Dispatch(t: TrackInfo): (r: TrackInfo)
    ensures SameButFlags(r, t)
    ensures t.kind != Audio && t.kind != Subtitles ==> r == t
    ensures t.kind == Audio || t.kind == Subtitles ==>
      r.isDefault == r.isForced && r.isDefault in {0, 1} && (r.isDefault == 1 <==> IsPreferred(t))
  {
    if t.kind == Audio then AudioRule(t)
    else if t.kind == Subtitles then SubtitleRule(t)
    else t
  }

  /** The heuristics applied to every track of a listing. */
  function DispatchAll(ts: seq<TrackInfo>): (rs: seq<TrackInfo>)
    ensures |rs| == |ts|
    ensures forall i :: 0 <= i < |ts| ==> SameButFlags(rs[i], ts[i])
    ensures forall i :: 0 <= i < |ts| && (ts[i].kind == Audio || ts[i].kind == Subtitles) ==>
      rs[i].isDefault == rs[i].isForced && rs[i].isDefault in {0, 1} &&
      (rs[i].isDefault == 1 <==> IsPreferred(ts[i]))
  {
    seq(|ts|, i requires 0 <= i < |ts| => Dispatch(ts[i]))
  }

  /** The decision does not depend on the flags the track had before. */
  lemma DispatchIgnoresPriorFlags(t: TrackInfo, isDefault: int, isForced: int)
    requires t.kind == Audio || t.kind == Subtitles
    ensures Dispatch(t.(isDefault := isDefault, isForced := isForced)) == Dispatch(t)
  {
    var u := t.(isDefault := isDefault, isForced := isForced);
    assert u.name == t.name && u.language == t.language && u.kind == t.kind;
    assert AudioRule(u) == AudioRule(t);
    assert SubtitleRule(u) == SubtitleRule(t);
  }

  /** A text that lacks the first character of every pattern contains none of them. */
  lemma NoInfixWithoutFirstChar(pats: seq<string>, text: string)
    requires forall k :: 0 <= k < |pats| ==> |pats[k]| > 0 && pats[k][0] !in text
    ensures !exists k :: 0 <= k < |pats| && IsInfix(pats[k], text)
  {
    forall k, i | 0 <= k < |pats| && OccursAt(pats[k], text, i)
      ensures false
    {
    }
  }

  /** "English Sign Only" is vetoed by the lyrics keyword "sign" although "english" matches. */
  lemma EnglishSignOnlyIsNotDefault(t: TrackInfo)
    requires t.language == English && t.name == "English Sign Only"
    ensures SubtitleRule(t).isDefault == 0
  {
    assert Lower(t.name) == "english sign only";
    assert OccursAt("sign", Lower(t.name), 8);
    assert IsInfix(LyricsKeywords[0], Lower(t.name));
  }

  lemma LowerFullDialog()
    ensures Lower("Full Dialog") == "full dialog"
  {
    var lowered := Lower("Full Dialog");
    assert lowered[0] == 'f' && lowered[5] == 'd';
  }

  lemma FullDialogHasNoLyrics()
    ensures !exists k :: 0 <= k < |LyricsKeywords| && IsInfix(LyricsKeywords[k], "full dialog")
  {
    NoInfixWithoutFirstChar(LyricsKeywords, "full dialog");
  }

  /** "Full Dialog" matches a dialogue keyword and no lyrics keyword. */
  lemma FullDialogIsDefault(t: TrackInfo)
    requires t.language == English && t.name == "Full Dialog"
    ensures SubtitleRule(t).isDefault == 1
  {
    LowerFullDialog();
    FullDialogHasNoLyrics();
    assert OccursAt(DialogueKeywords[1], "full dialog", 0);
  }

  /** "Signs & Songs" matches a lyrics keyword and no dialogue keyword. */
  lemma SignsAndSongsIsNotDefault(t: TrackInfo)
    requires t.language == English && t.name == "Signs & Songs"
    ensures SubtitleRule(t).isDefault == 0
  {
    var lowered := Lower(t.name);
    assert lowered[0] == 's' && lowered[8] == 's';
    assert lowered == "signs & songs";
    NoInfixWithoutFirstChar(DialogueKeywords, lowered);
  }

  /** `set_audio_track_flag`: overwrites the two flags of `track` in place. */
  method SetAudioTrackFlag(track: Track)
    modifies track
    ensures track.Value() == AudioRule(old(track.Value()))
  {
    if track.language != Japanese {
      track.isDefault := 0;
      track.isForced := 0;
      return;
    }
    var isJapanese := track.language == Japanese;
    track.isDefault := if isJapanese then 1 else 0;
    track.isForced := if isJapanese then 1 else 0;
  }

  /** `set_sub_track_flag`: overwrites the two flags of `track` in place. */
  method SetSubTrackFlag(track: Track)
    modifies track
    ensures track.Value() == SubtitleRule(old(track.Value()))
  {
    if track.language != English {
      track.isDefault := 0;
      track.isForced := 0;
      return;
    }
    var isDialogue := AnyContains(Lower(track.name), DialogueKeywords);
    var isLyrics := AnyContains(Lower(track.name), LyricsKeywords);
    track.isDefault := if isDialogue && !isLyrics then 1 else 0;
    track.isForced := if isDialogue && !isLyrics then 1 else 0;
  }

  /** The loop of `change_flags`: every track gets the rule for its kind, each object in place. */
  method ChangeTrackFlags(tracks: seq<Track>)
    requires Distinct(tracks)
    modifies tracks
    ensures Values(tracks) == DispatchAll(old(Values(tracks)))
  {
    for i := 0 to |tracks|
      invariant forall k :: 0 <= k < i ==> tracks[k].Value() == Dispatch(old(tracks[k].Value()))
      invariant forall k :: i <= k < |tracks| ==> tracks[k].Value() == old(tracks[k].Value())
    {
      var track := tracks[i];
      if track.kind == Audio {
        SetAudioTrackFlag(track);
      } else if track.kind == Subtitles {
        SetSubTrackFlag(track);
      }
    }
  }
}
