/** The track listing of one container file: the raw entries reported by `mkvmerge -F json`,
    the audio/subtitle filter, and the `Track` records built from the kept entries
    (`get_mkv_tracks` and its nested class `Track`). */
module Tracks {
  import opened Wrappers
  import Seqs

  /** The `properties` object of one reported track; a key absent from the JSON is `None`. */
  datatype RawProperties = RawProperties(
    number: Option<int>,
    language: Option<string>,
    defaultTrack: Option<bool>,
    forcedTrack: Option<bool>,
    trackName: Option<string>)

  /** One entry of the `tracks` array: its `type` and its `properties`. */
  datatype RawTrack = RawTrack(kind: string, properties: RawProperties)

  /** The `KeyError` raised while building a `Track` from an entry that lacks a required key. */
  datatype MetadataError = MissingKey(key: string)

  /** The state of a `Track` object: every field it carries. */
  datatype TrackInfo = TrackInfo(
    id: int,
    name: string,
    language: string,
    kind: string,
    origin: string,
    path: string,
    isDefault: int,
    isForced: int)

  const Audio := "audio"
  const Subtitles := "subtitles"
  /** Label given to a track whose entry has no `track_name`. */
  const NoName := "None"

  /** The filter of the comprehension: `t["type"] in ["audio", "subtitles"]`. */
  predicate IsListed(raw: RawTrack) {
    raw.kind == Audio || raw.kind == Subtitles
  }

  /** The entries the comprehension turns into tracks, in listing order. */
  function Selected(raws: seq<RawTrack>): (sel: seq<RawTrack>)
    ensures |sel| <= |raws|
    ensures forall raw :: raw in sel ==> raw in raws && IsListed(raw)
  {
    Seqs.Filter(raws, IsListed)
  }

  /** The filter keeps exactly the audio and subtitle entries (video and any other type are dropped),
      and it keeps them in listing order: selecting from a concatenation concatenates the selections. */
  lemma SelectedKeepsExactlyListed(raws: seq<RawTrack>, more: seq<RawTrack>)
    ensures forall raw :: raw in Selected(raws) <==> raw in raws && IsListed(raw)
    ensures Selected(raws + more) == Selected(raws) + Selected(more)
  {
    forall raw | raw in raws && IsListed(raw)
      ensures raw in Selected(raws)
    {
      Seqs.FilterKeepsAll(raws, IsListed, raw);
    }
    Seqs.FilterConcat(raws, more, IsListed);
  }

  /** `1 if v else 0`. */
  function FlagOf(v: bool): (f: int)
    ensures f == 0 || f == 1
    ensures f == 1 <==> v
  {
    if v then 1 else 0
  }

  /** `Track(t)`: reads the properties in the order the constructor does, so the first missing key is reported. */
  function Decode(raw: RawTrack, origin: string, path: string): (r: Result<TrackInfo, MetadataError>)
    ensures r.Success? <==>
      raw.properties.number.Some? && raw.properties.language.Some? &&
      raw.properties.defaultTrack.Some? && raw.properties.forcedTrack.Some?
    ensures r.Success? ==>
      r.value.kind == raw.kind && r.value.origin == origin && r.value.path == path &&
      r.value.id == raw.properties.number.value &&
      r.value.language == raw.properties.language.value &&
      (raw.properties.trackName.None? ==> r.value.name == NoName) &&
      (raw.properties.trackName.Some? ==> r.value.name == raw.properties.trackName.value) &&
      (r.value.isDefault == 1 <==> raw.properties.defaultTrack.value) &&
      (r.value.isForced == 1 <==> raw.properties.forcedTrack.value)
    ensures r.Success? ==> r.value.isDefault in {0, 1} && r.value.isForced in {0, 1}
    ensures var p := raw.properties; p.number.None? ==> r == Failure(MissingKey("number"))
    ensures var p := raw.properties; p.number.Some? && p.language.None? ==> r == Failure(MissingKey("language"))
    ensures var p := raw.properties;
      p.number.Some? && p.language.Some? && p.defaultTrack.None? ==> r == Failure(MissingKey("default_track"))
    ensures var p := raw.properties;
      p.number.Some? && p.language.Some? && p.defaultTrack.Some? && p.forcedTrack.None? ==>
        r == Failure(MissingKey("forced_track"))
  {
    var props := raw.properties;
    var name := props.trackName.GetOr(NoName);
    if props.number.None? then Failure(MissingKey("number"))
    else if props.language.None? then Failure(MissingKey("language"))
    else if props.defaultTrack.None? then Failure(MissingKey("default_track"))
    else if props.forcedTrack.None? then Failure(MissingKey("forced_track"))
    else Success(TrackInfo(props.number.value, name, props.language.value, raw.kind, origin, path,
                           FlagOf(props.defaultTrack.value), FlagOf(props.forcedTrack.value)))
  }

  /** Builds the tracks of `sel` in order; the first entry that fails to decode aborts the whole listing. */
  function DecodeAll(sel: seq<RawTrack>, origin: string, path: string): (r: Result<seq<TrackInfo>, MetadataError>)
    ensures r.Success? ==> |r.value| == |sel|
  {
    if sel == [] then Success([])
    else
      match Decode(sel[0], origin, path)
      case Failure(e) => Failure(e)
      case Success(t) =>
        match DecodeAll(sel[1..], origin, path)
        case Failure(e) => Failure(e)
        case Success(ts) => Success([t] + ts)
  }

  /** The listing decodes exactly when every entry does; then track i is entry i decoded, and otherwise
      the error is that of the first entry that fails. */
  lemma {:induction false} DecodeAllSpec(sel: seq<RawTrack>, origin: string, path: string)
    ensures DecodeAll(sel, origin, path).Success? <==>
      forall i :: 0 <= i < |sel| ==> Decode(sel[i], origin, path).Success?
    ensures DecodeAll(sel, origin, path).Success? ==>
      |DecodeAll(sel, origin, path).value| == |sel| &&
      forall i :: 0 <= i < |sel| ==> Decode(sel[i], origin, path) == Success(DecodeAll(sel, origin, path).value[i])
    ensures DecodeAll(sel, origin, path).Failure? ==>
      exists i :: 0 <= i < |sel| && Decode(sel[i], origin, path) == Failure(DecodeAll(sel, origin, path).error) &&
        forall j :: 0 <= j < i ==> Decode(sel[j], origin, path).Success?
  {
    if sel != [] {
      DecodeAllSpec(sel[1..], origin, path);
      var rest := DecodeAll(sel[1..], origin, path);
      if Decode(sel[0], origin, path).Success? {
        if rest.Failure? {
          var i :| 0 <= i < |sel[1..]| && Decode(sel[1..][i], origin, path) == Failure(rest.error) &&
            forall j :: 0 <= j < i ==> Decode(sel[1..][j], origin, path).Success?;
          assert Decode(sel[i + 1], origin, path) == Failure(rest.error);
          assert forall j :: 0 < j < i + 1 ==> sel[j] == sel[1..][j - 1];
        } else {
          assert forall i :: 0 < i < |sel| ==> sel[i] == sel[1..][i - 1];
        }
      } else {
        assert Decode(sel[0], origin, path) == Failure(DecodeAll(sel, origin, path).error);
      }
    }
  }

  /** The result of `get_mkv_tracks` once the JSON is parsed: the audio and subtitle tracks, or the key error. */
  function Inspect(raws: seq<RawTrack>, origin: string, path: string): (r: Result<seq<TrackInfo>, MetadataError>)
    ensures r.Success? ==> |r.value| == |Selected(raws)| <= |raws|
  {
    DecodeAll(Selected(raws), origin, path)
  }

  /** A successful listing holds one track per audio or subtitle entry, each an audio or subtitle track
      with 0/1 flags. */
  lemma InspectSpec(raws: seq<RawTrack>, origin: string, path: string)
    ensures Inspect(raws, origin, path).Success? ==>
      |Inspect(raws, origin, path).value| == |Selected(raws)| &&
      forall i :: 0 <= i < |Selected(raws)| ==>
        Decode(Selected(raws)[i], origin, path) == Success(Inspect(raws, origin, path).value[i])
    ensures Inspect(raws, origin, path).Success? ==>
      forall i :: 0 <= i < |Inspect(raws, origin, path).value| ==>
        var t := Inspect(raws, origin, path).value[i];
        (t.kind == Audio || t.kind == Subtitles) && t.isDefault in {0, 1} && t.isForced in {0, 1}
  {
    var sel := Selected(raws);
    DecodeAllSpec(sel, origin, path);
    assert forall i :: 0 <= i < |sel| ==> sel[i] in sel && IsListed(sel[i]);
  }

  /** Decoding a concatenation: the first failure wins, otherwise the decoded parts are concatenated. */
  lemma {:induction false} DecodeAllConcat(a: seq<RawTrack>, b: seq<RawTrack>, origin: string, path: string)
    ensures DecodeAll(a + b, origin, path) ==
      if DecodeAll(a, origin, path).Failure? then DecodeAll(a, origin, path)
      else if DecodeAll(b, origin, path).Failure? then DecodeAll(b, origin, path)
      else Success(DecodeAll(a, origin, path).value + DecodeAll(b, origin, path).value)
  {
    if a == [] {
      assert a + b == b;
      assert DecodeAll(a, origin, path) == Success([]);
      if DecodeAll(b, origin, path).Success? {
        assert [] + DecodeAll(b, origin, path).value == DecodeAll(b, origin, path).value;
      }
    } else {
      assert (a + b)[0] == a[0];
      assert (a + b)[1..] == a[1..] + b;
      DecodeAllConcat(a[1..], b, origin, path);
      var ra, rb := DecodeAll(a[1..], origin, path), DecodeAll(b, origin, path);
      if Decode(a[0], origin, path).Success? && ra.Success? && rb.Success? {
        var t := Decode(a[0], origin, path).value;
        assert [t] + (ra.value + rb.value) == ([t] + ra.value) + rb.value;
      }
    }
  }

  /** Splitting the listing splits the result of `Inspect` the same way. */
  lemma InspectConcat(a: seq<RawTrack>, b: seq<RawTrack>, origin: string, path: string)
    ensures Inspect(a + b, origin, path) ==
      if Inspect(a, origin, path).Failure? then Inspect(a, origin, path)
      else if Inspect(b, origin, path).Failure? then Inspect(b, origin, path)
      else Success(Inspect(a, origin, path).value + Inspect(b, origin, path).value)
  {
    Seqs.FilterConcat(a, b, IsListed);
    DecodeAllConcat(Selected(a), Selected(b), origin, path);
  }

  /** What one more entry of the listing does to the tracks built so far. */
  lemma InspectStep(raws: seq<RawTrack>, i: nat, origin: string, path: string)
    requires i < |raws| && Inspect(raws[..i], origin, path).Success?
    ensures !IsListed(raws[i]) ==> Inspect(raws[..i + 1], origin, path) == Inspect(raws[..i], origin, path)
    ensures IsListed(raws[i]) && Decode(raws[i], origin, path).Failure? ==>
      Inspect(raws, origin, path) == Failure(Decode(raws[i], origin, path).error)
    ensures IsListed(raws[i]) && Decode(raws[i], origin, path).Success? ==>
      Inspect(raws[..i + 1], origin, path) ==
        Success(Inspect(raws[..i], origin, path).value + [Decode(raws[i], origin, path).value])
  {
    InspectConcat(raws[..i], [raws[i]], origin, path);
    assert raws[..i + 1] == raws[..i] + [raws[i]];
    assert Selected([raws[i]]) == if IsListed(raws[i]) then [raws[i]] else [];
    assert [raws[i]][1..] == [];
    assert DecodeAll([], origin, path) == Success([]);
    if IsListed(raws[i]) && Decode(raws[i], origin, path).Failure? {
      InspectConcat(raws[..i + 1], raws[i + 1..], origin, path);
      assert raws[..i + 1] + raws[i + 1..] == raws;
    }
    if !IsListed(raws[i]) {
      assert Inspect(raws[..i], origin, path).value + [] == Inspect(raws[..i], origin, path).value;
    } else if Decode(raws[i], origin, path).Success? {
      var t := Decode(raws[i], origin, path).value;
      assert DecodeAll([raws[i]][1..], origin, path) == Success([]);
      assert [t] + [] == [t];
    }
  }

  /** A `Track` object: built once from a listing entry, then its flags are overwritten in place. */
  class Track {
    var id: int
    var name: string
    var language: string
    var kind: string
    var origin: string
    var path: string
    var isDefault: int
    var isForced: int

    function Value(): TrackInfo
      reads this
    {
      TrackInfo(id, name, language, kind, origin, path, isDefault, isForced)
    }

    constructor (info: TrackInfo)
      ensures Value() == info
    {
      id := info.id;
      name := info.name;
      language := info.language;
      kind := info.kind;
      origin := info.origin;
      path := info.path;
      isDefault := info.isDefault;
      isForced := info.isForced;
    }
  }

  /** The states of a sequence of tracks, in order. */
  function Values(tracks: seq<Track>): (vs: seq<TrackInfo>)
    reads tracks
    ensures |vs| == |tracks|
    ensures forall i :: 0 <= i < |tracks| ==> vs[i] == tracks[i].Value()
  {
    if tracks == [] then [] else [tracks[0].Value()] + Values(tracks[1..])
  }

  lemma ValuesSnoc(tracks: seq<Track>, t: Track)
    ensures Values(tracks + [t]) == Values(tracks) + [t.Value()]
  {
    assert forall i :: 0 <= i < |tracks| ==> (tracks + [t])[i] == tracks[i];
  }

  /** No object occurs twice. */
  predicate Distinct(tracks: seq<Track>) {
    forall i, j :: 0 <= i < j < |tracks| ==> tracks[i] != tracks[j]
  }

  lemma DistinctSnoc(tracks: seq<Track>, t: Track)
    requires Distinct(tracks) && t !in tracks
    ensures Distinct(tracks + [t])
  {
  }

  /** One element of the comprehension: entry `i` is skipped, aborts the listing with its `KeyError`,
      or becomes a new `Track` appended to `tracks`. */
  method AddTrack(raws: seq<RawTrack>, i: nat, origin: string, path: string, tracks: seq<Track>)
    returns (r: Result<seq<Track>, MetadataError>)
    requires i < |raws|
    requires Inspect(raws[..i], origin, path) == Success(Values(tracks))
    requires Distinct(tracks)
    ensures r.Failure? ==> Inspect(raws, origin, path) == Failure(r.error)
    ensures r.Success? ==> Inspect(raws[..i + 1], origin, path) == Success(Values(r.value))
    ensures r.Success? ==> Distinct(r.value)
    ensures r.Success? ==> forall t :: t in r.value ==> t in tracks || fresh(t)
  {
    InspectStep(raws, i, origin, path);
    if !IsListed(raws[i]) {
      return Success(tracks);
    }
    var d := Decode(raws[i], origin, path);
    if d.Failure? {
      return Failure(d.error);
    }
    var t := new Track(d.value);
    ValuesSnoc(tracks, t);
    DistinctSnoc(tracks, t);
    r := Success(tracks + [t]);
  }

  /** `get_mkv_tracks` on an already parsed listing: one fresh `Track` per audio or subtitle entry,
      in listing order, or the `KeyError` of the first entry that lacks a required key. */
  method GetMkvTracks(raws: seq<RawTrack>, origin: string, path: string)
    returns (r: Result<seq<Track>, MetadataError>)
    ensures r.Success? <==> Inspect(raws, origin, path).Success?
    ensures r.Failure? ==> r.error == Inspect(raws, origin, path).error
    ensures r.Success? ==> Values(r.value) == Inspect(raws, origin, path).value
    ensures r.Success? ==> Distinct(r.value)
    ensures r.Success? ==> forall i :: 0 <= i < |r.value| ==> fresh(r.value[i])
  {
    var tracks: seq<Track> := [];
    var i := 0;
    while i < |raws|
      invariant 0 <= i <= |raws|
      invariant Inspect(raws[..i], origin, path) == Success(Values(tracks))
      invariant Distinct(tracks)
      invariant forall t :: t in tracks ==> fresh(t)
    {
      var step := AddTrack(raws, i, origin, path, tracks);
      if step.Failure? {
        return Failure(step.error);
      }
      tracks := step.value;
      i := i + 1;
    }
    assert raws[..i] == raws;
    assert forall k :: 0 <= k < |tracks| ==> tracks[k] in tracks;
    r := Success(tracks);
  }
}
