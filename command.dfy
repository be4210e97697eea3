/** The argument list of the `mkvpropedit` call (`generate_mkvpropedit_command`), and a reader that
    recovers the edits from it, which shows that the list says exactly what the tracks say. */
module Command {
  import opened Wrappers
  import opened Text
  import opened Tracks
  import Seqs

  const Program := "ffmpeg/mkvpropedit"
  const EditOption := "--edit"
  const SetOption := "--set"
  const TrackSelector := "track:"
  const DefaultProperty := "flag-default="
  const ForcedProperty := "flag-forced="

  /** The six arguments that edit one track: select it by number, then set both flags. */
  function EditBlock(t: TrackInfo): (b: seq<string>)
    ensures |b| == 6
  {
    [EditOption, TrackSelector + IntToString(t.id),
     SetOption, DefaultProperty + IntToString(t.isDefault),
     SetOption, ForcedProperty + IntToString(t.isForced)]
  }

  /** The edit blocks of all tracks, in track order. */
  function Blocks(ts: seq<TrackInfo>): (args: seq<string>)
    ensures |args| == 6 * |ts|
  {
    Seqs.FlatMapSixLength(ts, EditBlock);
    Seqs.FlatMap(ts, EditBlock)
  }

  /** The whole command line: the program, the file, then one edit block per track. */
  function PropEditCommand(mkvFile: string, ts: seq<TrackInfo>): (c: seq<string>)
    ensures |c| == 2 + 6 * |ts|
    ensures c[0] == Program && c[1] == mkvFile
  {
    [Program, mkvFile] + Blocks(ts)
  }

  /** One more track appends exactly its edit block to the command line. */
  lemma CommandSnoc(mkvFile: string, ts: seq<TrackInfo>, t: TrackInfo)
    ensures PropEditCommand(mkvFile, ts + [t]) == PropEditCommand(mkvFile, ts) + EditBlock(t)
  {
    Seqs.FlatMapSnoc(ts, t, EditBlock);
  }

  /** For N tracks the command has 2 + 6N arguments: the program and the file, then block i
      edits track i with its number and its two flags. */
  lemma CommandLayout(mkvFile: string, ts: seq<TrackInfo>, i: nat)
    ensures |PropEditCommand(mkvFile, ts)| == 2 + 6 * |ts|
    ensures PropEditCommand(mkvFile, ts)[..2] == [Program, mkvFile]
    ensures i < |ts| ==>
              PropEditCommand(mkvFile, ts)[2 + 6 * i..8 + 6 * i] ==
              ["--edit", "track:" + IntToString(ts[i].id),
               "--set", "flag-default=" + IntToString(ts[i].isDefault),
               "--set", "flag-forced=" + IntToString(ts[i].isForced)]
  {
    assert PropEditCommand(mkvFile, ts)[..2] == [Program, mkvFile];
    if i < |ts| {
      Seqs.FlatMapSixAt(ts, EditBlock, i);
      var c := PropEditCommand(mkvFile, ts);
      assert c[2 + 6 * i..8 + 6 * i] == Blocks(ts)[6 * i..6 * i + 6];
    }
  }

  /** What one edit block asks of the editor. */
  datatype Edit = Edit(track: int, isDefault: int, isForced: int)

  function EditOf(t: TrackInfo): Edit {
    Edit(t.id, t.isDefault, t.isForced)
  }

  function EditsOf(ts: seq<TrackInfo>): (es: seq<Edit>)
    ensures |es| == |ts|
    ensures forall i :: 0 <= i < |ts| ==> es[i] == EditOf(ts[i])
  {
    seq(|ts|, i requires 0 <= i < |ts| => EditOf(ts[i]))
  }

  /** `s` with `prefix` removed from its front, if it starts with it. */
  function StripPrefix(prefix: string, s: string): (r: Option<string>)
    ensures r.Some? ==> s == prefix + r.value
  {
    if |prefix| <= |s| && s[..|prefix|] == prefix then Some(s[|prefix|..]) else None
  }

  lemma StripPrefixOf(prefix: string, x: string)
    ensures StripPrefix(prefix, prefix + x) == Some(x)
  {
    assert (prefix + x)[..|prefix|] == prefix;
    assert (prefix + x)[|prefix|..] == x;
  }

  /** Reads a number written after `prefix`. */
  function ParseValue(prefix: string, arg: string): Option<int> {
    match StripPrefix(prefix, arg)
    case None => None
    case Some(digits) => ParseInt(digits)
  }

  function ParseBlock(b: seq<string>): Option<Edit>
    requires |b| == 6
  {
    if b[0] != EditOption || b[2] != SetOption || b[4] != SetOption then None
    else
      match (ParseValue(TrackSelector, b[1]), ParseValue(DefaultProperty, b[3]), ParseValue(ForcedProperty, b[5]))
      case (Some(id), Some(d), Some(f)) => Some(Edit(id, d, f))
      case _ => None
  }

  function ParseBlocks(args: seq<string>): Option<seq<Edit>>
    decreases |args|
  {
    if args == [] then Some([])
    else if |args| < 6 then None
    else
      match (ParseBlock(args[..6]), ParseBlocks(args[6..]))
      case (Some(e), Some(es)) => Some([e] + es)
      case _ => None
  }

  /** Reads a command line back into the file it edits and the edits it makes, in order. */
  function ParseCommand(args: seq<string>): Option<(string, seq<Edit>)> {
    if |args| < 2 || args[0] != Program then None
    else
      match ParseBlocks(args[2..])
      case Some(es) => Some((args[1], es))
      case None => None
  }

  lemma ParseEditBlock(t: TrackInfo)
    ensures ParseBlock(EditBlock(t)) == Some(EditOf(t))
  {
    StripPrefixOf(TrackSelector, IntToString(t.id));
    StripPrefixOf(DefaultProperty, IntToString(t.isDefault));
    StripPrefixOf(ForcedProperty, IntToString(t.isForced));
    IntToStringRoundTrip(t.id);
    IntToStringRoundTrip(t.isDefault);
    IntToStringRoundTrip(t.isForced);
  }

  lemma {:induction false} ParseBlocksOf(ts: seq<TrackInfo>)
    ensures ParseBlocks(Blocks(ts)) == Some(EditsOf(ts))
  {
    if ts != [] {
      var head, rest := EditBlock(ts[0]), Blocks(ts[1..]);
      assert Blocks(ts) == head + rest;
      assert (head + rest)[..6] == head;
      assert (head + rest)[6..] == rest;
      ParseEditBlock(ts[0]);
      ParseBlocksOf(ts[1..]);
      assert EditsOf(ts) == [EditOf(ts[0])] + EditsOf(ts[1..]);
    }
  }

  /** The command line loses nothing: reading it back gives the file and, in track order, each track's
      number and flags. */
  lemma CommandRoundTrip(mkvFile: string, ts: seq<TrackInfo>)
    ensures ParseCommand(PropEditCommand(mkvFile, ts)) == Some((mkvFile, EditsOf(ts)))
  {
    assert PropEditCommand(mkvFile, ts)[2..] == Blocks(ts);
    ParseBlocksOf(ts);
  }

  lemma AppendedBlock(before: seq<string>, after: seq<string>, t: TrackInfo)
    requires after == before + [EditOption, TrackSelector + IntToString(t.id)]
                            + [SetOption, DefaultProperty + IntToString(t.isDefault)]
                            + [SetOption, ForcedProperty + IntToString(t.isForced)]
    ensures after == before + EditBlock(t)
  {
  }

  /** `generate_mkvpropedit_command`: grows the argument list track by track. */
  method GenerateMkvpropeditCommand(mkvFile: string, tracks: seq<Track>) returns (command: seq<string>)
    ensures command == PropEditCommand(mkvFile, Values(tracks))
  {
    command := [Program, mkvFile];
    for i := 0 to |tracks|
      invariant command == PropEditCommand(mkvFile, Values(tracks)[..i])
    {
      var track := tracks[i];
      ghost var before := command;
      command := command + [EditOption, TrackSelector + IntToString(track.id)];
      command := command + [SetOption, DefaultProperty + IntToString(track.isDefault)];
      command := command + [SetOption, ForcedProperty + IntToString(track.isForced)];
      AppendedBlock(before, command, track.Value());
      Seqs.PrefixSnoc(Values(tracks), i);
      CommandSnoc(mkvFile, Values(tracks)[..i], track.Value());
    }
    assert Values(tracks)[..|tracks|] == Values(tracks);
  }
}
