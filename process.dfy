/** `change_flags` for one file: list the tracks, apply the heuristics to each, build the
    `mkvpropedit` command and the report. Running the command and printing the report are outside the model. */
module Process {
  import opened Wrappers
  import Seqs
  import opened Tracks
  import opened Flags
  import opened Command
  import opened Summary

  /** What `change_flags` hands to the outside world for one file. */
  datatype Report = Report(command: seq<string>, audioCount: nat, subCount: nat, flagCount: int, statusMessage: string)

  /** The outcome of `change_flags` as a function of the parsed listing. */
  function FileOutcome(raws: seq<RawTrack>, mkvFile: string, origin: string, path: string)
    : (r: Result<Report, MetadataError>)
    ensures r.Success? <==> Inspect(raws, origin, path).Success?
    ensures r.Failure? ==> r.error == Inspect(raws, origin, path).error
    ensures r.Success? ==> |r.value.command| == 2 + 6 * |Selected(raws)|
    ensures r.Success? ==> r.value.audioCount + r.value.subCount <= |Selected(raws)|
  {
    match Inspect(raws, origin, path)
    case Failure(e) => Failure(e)
    case Success(ts) =>
      var flagged := DispatchAll(ts);
      var counts := TracksCount(flagged);
      var flagCount := SumDefault(flagged);
      Success(Report(PropEditCommand(mkvFile, flagged), counts.0, counts.1, flagCount, StatusMessage(flagCount)))
  }

  lemma FileOutcomeOfListing(raws: seq<RawTrack>, mkvFile: string, origin: string, path: string)
    requires Inspect(raws, origin, path).Success?
    ensures
      var flagged := DispatchAll(Inspect(raws, origin, path).value);
      FileOutcome(raws, mkvFile, origin, path) ==
        Success(Report(PropEditCommand(mkvFile, flagged), TracksCount(flagged).0, TracksCount(flagged).1,
                       SumDefault(flagged), StatusMessage(SumDefault(flagged))))
  {
  }

  /** A file that lists successfully gets one six-argument edit block per audio or subtitle entry,
      and reading the command back gives the heuristic's decision for each track, in listing order. */
  lemma FileCommandFacts(raws: seq<RawTrack>, mkvFile: string, origin: string, path: string)
    requires FileOutcome(raws, mkvFile, origin, path).Success?
    ensures Inspect(raws, origin, path).Success?
    ensures
      var ts := Inspect(raws, origin, path).value;
      var report := FileOutcome(raws, mkvFile, origin, path).value;
      |report.command| == 2 + 6 * |Selected(raws)| &&
      ParseCommand(report.command) == Some((mkvFile, EditsOf(DispatchAll(ts))))
  {
    InspectSpec(raws, origin, path);
    FileOutcomeOfListing(raws, mkvFile, origin, path);
    CommandRoundTrip(mkvFile, DispatchAll(Inspect(raws, origin, path).value));
  }

  /** The reported audio and subtitle counts add up to the number of tracks listed. */
  lemma FileCountFacts(raws: seq<RawTrack>, mkvFile: string, origin: string, path: string)
    requires FileOutcome(raws, mkvFile, origin, path).Success?
    ensures Inspect(raws, origin, path).Success?
    ensures
      var report := FileOutcome(raws, mkvFile, origin, path).value;
      report.audioCount + report.subCount == |Selected(raws)|
  {
    InspectSpec(raws, origin, path);
    FileOutcomeOfListing(raws, mkvFile, origin, path);
    var ts := Inspect(raws, origin, path).value;
    var flagged := DispatchAll(ts);
    assert forall i :: 0 <= i < |flagged| ==> flagged[i].kind == ts[i].kind;
    CountsCoverListing(flagged);
  }

  /** The reported `flag_count` is the number of Japanese audio and English dialogue subtitle tracks,
      and the verdict is "Pass" exactly when there are at least two of them. */
  lemma FileVerdictFacts(raws: seq<RawTrack>, mkvFile: string, origin: string, path: string)
    requires FileOutcome(raws, mkvFile, origin, path).Success?
    ensures Inspect(raws, origin, path).Success?
    ensures
      var preferred := |Seqs.Filter(Inspect(raws, origin, path).value, IsPreferred)|;
      var report := FileOutcome(raws, mkvFile, origin, path).value;
      report.flagCount == preferred &&
      (report.statusMessage == "Pass\n" <==> preferred >= 2)
  {
    InspectSpec(raws, origin, path);
    FileOutcomeOfListing(raws, mkvFile, origin, path);
    FlagCountIsPreferredCount(Inspect(raws, origin, path).value);
    assert CheckTracks + "\n" != "Pass\n";
  }

  /** The steps of `change_flags` after the listing: flag every track, then build the command and the report. */
  method FlagAndReport(mkvFile: string, tracks: seq<Track>) returns (report: Report)
    requires Distinct(tracks)
    modifies tracks
    ensures Values(tracks) == DispatchAll(old(Values(tracks)))
    ensures
      var flagged := DispatchAll(old(Values(tracks)));
      report == Report(PropEditCommand(mkvFile, flagged), TracksCount(flagged).0, TracksCount(flagged).1,
                       SumDefault(flagged), StatusMessage(SumDefault(flagged)))
  {
    ChangeTrackFlags(tracks);
    var command := GenerateMkvpropeditCommand(mkvFile, tracks);
    var audioCount, subCount, flagCount, statusMessage := YieldTerminalOutput(tracks);
    report := Report(command, audioCount, subCount, flagCount, statusMessage);
  }

  /** `change_flags` on an already parsed listing. */
  method ChangeFlags(raws: seq<RawTrack>, mkvFile: string, origin: string, path: string)
    returns (r: Result<Report, MetadataError>)
    ensures r == FileOutcome(raws, mkvFile, origin, path)
  {
    var listed := GetMkvTracks(raws, origin, path);
    if listed.Failure? {
      return Failure(listed.error);
    }
    var tracks := listed.value;
    var report := FlagAndReport(mkvFile, tracks);
    FileOutcomeOfListing(raws, mkvFile, origin, path);
    r := Success(report);
  }
}
