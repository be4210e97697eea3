# mkv-batch-set-flag — a Dafny model of the flag-setting core

The tool marks the "default" and "forced" flags of the audio and subtitle tracks in MKV files.
For each file it asks `mkvmerge` for the track listing as JSON. It keeps the audio and subtitle
entries as `Track` objects. It then flags Japanese audio tracks, and English subtitle tracks whose
name suggests full dialogue. It turns the flags into one `mkvpropedit` command line. Last, it prints
a per-file report with the track counts and a "Pass" / "Check tracks" verdict.

This project models that core of `project.py`. It works on the already parsed JSON listing and
stops before the external programs run:

- `wrappers.dfy` — `Option` and `Result`.
- `seqs.dfy` — `Seqs.Filter`, the order-preserving filter that the source's list comprehensions perform, and `Seqs.FlatMap`, the block-by-block growth of the argument list.
- `text.dfy` — the pieces of Python's `str` that the core relies on:
  - ASCII `lower()`;
  - the substring test `pat in text`, and `any(...)` over a list of patterns;
  - the decimal rendering of an `int` inside an f-string, together with a parser that reads it back.
- `tracks.dfy` — the raw JSON entries and the audio/subtitle filter. It also holds the decoding of
  one entry into a track, with the `KeyError` for a missing key. `Tracks.Track` is the mutable
  track object. `GetMkvTracks` builds those objects.
- `flags.dfy` — the audio and subtitle rules as specification functions, and the in-place methods
  `SetAudioTrackFlag` and `SetSubTrackFlag` proved against them. It also holds the per-track
  dispatch loop of `change_flags`.
- `command.dfy` — the `mkvpropedit` argument list. The builder method is proved against a
  specification function. A reader recovers the file and the per-track edits from the list.
- `summary.dfy` — `get_tracks_count`, the accumulated `flag_count` and the status message.
- `process.dfy` — `change_flags` for one file, from the listing to the command and the report.

Each method that changes `Track` objects states the whole new state of those objects. It does so
through `Track.Value()`, the record of all eight fields. So "only the two flags change" is part of
each contract. The dispatch loop requires its tracks to be distinct objects. `get_mkv_tracks`
guarantees this, because it creates a fresh object per entry, and `GetMkvTracks` proves it.

Lower-casing is modelled for ASCII only. Python's `str.lower()` is Unicode-wide. All six keywords
are ASCII, however. The only non-ASCII upper-case letters whose lower case holds ASCII letters are
the Kelvin sign (it becomes `k`) and `İ` (it becomes `i` followed by U+0307). No keyword contains
`k`. In every keyword an `i` is followed by an ASCII letter, never by U+0307. So the keyword
decisions are the same under both lower-casings. This is an argument, not a proof.

## Model

| member | source | states |
|---|---|---|
| Seqs.Filter | project.py:63 | the kept elements all come from the input and satisfy the condition; the result is no longer than the input |
| Seqs.FilterConcat | project.py:63 | filtering a concatenation concatenates the filtered parts, so the kept elements keep their relative order |
| Seqs.FilterKeepsAll | project.py:63 | no element that satisfies the condition is dropped |
| Seqs.FlatMapSnoc | project.py:144-147 | growing the input by one element appends exactly that element's block |
| Seqs.FlatMapSixAt | project.py:144-147 | with six-element blocks, the result has 6N elements and positions 6i to 6i+5 hold the block of element i |
| Text.LowerChar | project.py:130-131 | an ASCII upper-case letter moves 32 code points down to lower case; every other character is unchanged; the result is never upper case |
| Text.Lower | project.py:130-131 | `name.lower()` over ASCII, character by character: same length, upper-case letters lowered, all else kept, no upper case left |
| Text.InfixShift | project.py:130-131 | when `pat` does not start `text`, it occurs in `text` exactly when it occurs in `text` without its first character |
| Text.Contains | project.py:130-131 | `pat in text` is true exactly when `pat` occurs in `text` as a contiguous block at some position |
| Text.AnyContains | project.py:130-131 | `any(p in text for p in pats)` is true exactly when some pattern of the list occurs in `text` |
| Text.NatToString | project.py:145-147 | the rendering of a natural number is one or more decimal digits with no leading zero |
| Text.IntToString | project.py:145-147 | the rendering of an int is non-empty and starts with `-` exactly when the int is negative |
| Text.IntToStringRoundTrip | project.py:145-147 | reading back the f-string rendering of any int gives that int, so the rendering loses nothing |
| Tracks.SelectedKeepsExactlyListed | project.py:63 | an entry is kept exactly when its `type` is "audio" or "subtitles" (video and all else dropped), and selection preserves listing order |
| Tracks.Selected | project.py:63 | the kept entries are listed entries that are audio or subtitles, and there are no more of them than entries |
| Tracks.FlagOf | project.py:54-55 | the constructed flag is 0 or 1, and it is 1 exactly when the reported JSON flag is true |
| Tracks.Decode | project.py:45-55 | decoding succeeds exactly when number, language, default_track and forced_track are present; a missing `track_name` gives "None"; id, language, type, origin and path are copied; the flags are 0/1 and follow the reported flags; a failure names the first missing key in the order number, language, default_track, forced_track |
| Tracks.DecodeAll | project.py:63 | a successful comprehension yields exactly one track per kept entry |
| Tracks.DecodeAllSpec | project.py:63 | the comprehension succeeds exactly when every kept entry decodes; then track i is entry i decoded; otherwise the error is that of the first entry that fails |
| Tracks.InspectSpec | project.py:57-63 | a successful listing has one track per kept entry, in order, and each track is an audio or subtitle track with 0/1 flags |
| Tracks.Inspect | project.py:57-63 | a successful listing yields one track per audio or subtitle entry, at most one per entry |
| Tracks.DecodeAllConcat | project.py:63 | decoding a concatenation reports the first part's error, otherwise the second part's error, otherwise the concatenated tracks |
| Tracks.InspectConcat | project.py:57-63 | the same split law holds for the whole listing step |
| Tracks.InspectStep | project.py:63 | one more entry either is skipped, or aborts the whole listing with its key error, or appends its decoded track |
| Tracks.Track.constructor | project.py:46-55 | a new track object carries exactly the decoded field values |
| Tracks.Values | project.py:63 | the state list has one record per track object, each that object's current field values |
| Tracks.ValuesSnoc | project.py:63 | appending an object to the track list appends its state to the state list |
| Tracks.DistinctSnoc | project.py:63 | appending an object that is not in the list keeps the objects pairwise distinct |
| Tracks.AddTrack | project.py:63 | one element of the comprehension: a failure is the whole listing's key error; otherwise the objects so far, plus a fresh one for a kept entry, are pairwise distinct and their states are the listing decoded up to this entry |
| Tracks.GetMkvTracks | project.py:39-65 | fails exactly when the listing has a key error and reports that error; otherwise returns fresh, pairwise distinct objects whose states are the decoded audio and subtitle entries, in order |
| Flags.AudioRule | project.py:82-98 | both flags are set and equal, in {0,1}, and 1 exactly when the language is "jpn", whatever they were before; every other field is unchanged |
| Flags.SubtitleRule | project.py:101-136 | both flags are set and equal, in {0,1}, 0 for any language other than "eng", and 1 exactly when the language is "eng", the lower-cased name contains one of "dialog", "full", "english" and none of "sign", "song", "s&s"; every other field is unchanged |
| Flags.DispatchAll | project.py:182-186 | every track keeps all fields but its flags; on an audio or subtitle track the two flags are equal, 0/1, and 1 exactly for Japanese audio or English dialogue subtitles |
| Flags.Dispatch | project.py:183-186 | one loop iteration keeps all fields but the flags; other track kinds are untouched; an audio or subtitle track gets equal 0/1 flags that are 1 exactly when it is Japanese audio or English dialogue subtitles |
| Flags.DispatchIgnoresPriorFlags | project.py:89-134 | for audio and subtitle tracks the decision does not depend on the flags the track had before |
| Flags.NoInfixWithoutFirstChar | project.py:130-131 | a name lacking the first letter of every keyword contains none of them |
| Flags.EnglishSignOnlyIsNotDefault | project.py:126-134 | an English subtitle named "English Sign Only" is not flagged: "sign" vetoes the match on "english" |
| Flags.FullDialogIsDefault | project.py:126-134 | an English subtitle named "Full Dialog" is flagged |
| Flags.SignsAndSongsIsNotDefault | project.py:126-134 | an English subtitle named "Signs & Songs" is not flagged |
| Flags.SetAudioTrackFlag | project.py:82-98 | the track object's new state is the audio rule applied to its old state |
| Flags.SetSubTrackFlag | project.py:101-136 | the track object's new state is the subtitle rule applied to its old state |
| Flags.ChangeTrackFlags | project.py:182-186 | every track object's new state is the rule for its type applied to its old state, in place |
| Command.EditBlock | project.py:145-147 | the edit of one track is exactly six arguments (`ParseEditBlock` proves they read back to its id and flags) |
| Command.PropEditCommand | project.py:143-148 | the command for N tracks has 2 + 6N arguments, the program first and the file second |
| Command.Blocks | project.py:144-147 | the edit blocks of N tracks are 6N arguments |
| Command.CommandSnoc | project.py:143-147 | one more track appends exactly its six-argument edit block to the command line |
| Command.CommandLayout | project.py:143-148 | for any N tracks, zero included, the list has 2 + 6N arguments and starts with the program and the file; for each track i, block i is `--edit`, `track:<id>`, `--set`, `flag-default=<d>`, `--set`, `flag-forced=<f>` |
| Command.StripPrefix | project.py:145-147 | a stripped argument is the prefix followed by what is returned |
| Command.StripPrefixOf | project.py:145-147 | stripping a prefix from prefix + x gives back x |
| Command.ParseEditBlock | project.py:145-147 | reading one edit block gives back the track's id and both flags |
| Command.ParseBlocksOf | project.py:144-147 | reading the blocks gives back the edits of all tracks, in order |
| Command.CommandRoundTrip | project.py:143-148 | reading the command line gives back the file and, in track order, each track's id and flags, so the command says exactly what the tracks say |
| Command.AppendedBlock | project.py:145-147 | the three `+=` steps of one iteration append exactly that track's edit block |
| Command.GenerateMkvpropeditCommand | project.py:139-148 | the built list is the program, the file and the edit blocks of the tracks' current states, in order |
| Summary.TracksCount | project.py:68-79 | the audio count and the subtitle count together are at most the number of tracks |
| Summary.KindsDisjoint | project.py:73-75 | no track is counted as both audio and subtitles, so the two sub-lists together are no longer than the list |
| Summary.CountsCoverListing | project.py:68-79 | on a list of audio and subtitle tracks, the audio count plus the subtitle count is the list's length |
| Summary.SumDefault | project.py:159-161 | with 0/1 flags the accumulated `flag_count` lies between 0 and the number of tracks |
| Summary.SumDefaultCountsFlagged | project.py:159-161 | with 0/1 flags, the accumulated `flag_count` is the number of tracks flagged default |
| Summary.FlagCountIsPreferredCount | project.py:159-161 | after the heuristics, `flag_count` is the number of Japanese audio and English dialogue subtitle tracks |
| Summary.Repeat | project.py:166-167 | Python's string-times-int gives "" for a count of 0 or less and the string itself for 1 |
| Summary.StatusMessage | project.py:165-167 | the message is "Pass\n" when at least two tracks are flagged default, and "Check tracks\n" otherwise |
| Summary.YieldTerminalOutput | project.py:151-170 | returns the audio and subtitle counts, the accumulated `flag_count` over the tracks' current flags, and the status message for that count |
| Process.FileOutcome | project.py:173-192 | a file fails exactly when its listing has a key error, with that error; otherwise the command has 2 + 6N arguments for its N audio and subtitle entries and the two counts are at most N |
| Process.FileCommandFacts | project.py:173-192 | a file that lists successfully gets a command of 2 + 6N arguments for its N audio and subtitle entries, and reading it back gives each flagged track's id and flags in listing order |
| Process.FileCountFacts | project.py:173-192 | the reported audio and subtitle counts add up to the number of listed tracks |
| Process.FileVerdictFacts | project.py:173-192 | the reported `flag_count` is the number of preferred tracks, and the verdict is "Pass" exactly when there are at least two |
| Process.FlagAndReport | project.py:182-190 | every track object's new state is the heuristic applied to its old state, and the returned command and report are those of the flagged states |
| Process.ChangeFlags | project.py:173-192 | the outcome for one file: the listing's key error, or the command and report of its flagged tracks |

## Left out

- `check_ffmpeg` (project.py:11-21) is left out. It only checks that three executables exist on disk.
- `mkv_directory` (project.py:24-36) is left out. It is the folder dialog, the console clear and the directory walk.
- Running `mkvmerge` and decoding its JSON (project.py:57-60) are left out, because they are external. The model starts from the parsed `tracks` list.
- The re-raised `CalledProcessError` (project.py:64-65) is not modelled, for the same reason.
- The raw entries always have `type` and `properties`. A missing one would make the source raise a `KeyError` at project.py:62-63. The model has no such error.
- A `track_name` that is JSON `null` is not modelled. The source would fail on `.lower()` there. A name is either a string or absent.
- The `codec_private_data` removal (project.py:62) is not modelled. The model does not carry that property, and nothing reads it.
- `origin` and `path` come from `os.path.basename` and `os.path.dirname(os.path.abspath(...))`. The model takes them as parameters.
- Running `mkvpropedit` (project.py:189) is left out. It is an external mutation of the file.
- Printing the report (project.py:190) is left out, because it is console output.
- `yield_terminal_output` also builds the prompt text, the per-track lines and the `termcolor` colours (project.py:157, 162-163, 166, 168). These are presentation only. The model keeps the two counts, `flag_count` and the status message.
- `measure_duration` and `begin_process` (project.py:195-223), and benchmark.py, are left out. They cover wall-clock timing and one OS process per file.
- The `TypeError` and `AttributeError` raised on `None` arguments (test_project.py) are left out. Dafny's non-null types rule such arguments out.
- Text.Lower: lowers ASCII letters only, not Python's full Unicode `lower()`. The argument above shows that this does not change any keyword decision.
- Flags.ChangeTrackFlags: requires its track objects to be pairwise distinct. The source never passes the same object twice.
- The commented-out subtitle line counting (project.py:113-124, 129) is left out, because it is dead code.
