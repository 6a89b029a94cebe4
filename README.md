# A model of the MP3 player's playback core

The MP3 player keeps a playlist of file paths and plays one track at a time through the pygame mixer. This project models three parts of it in Dafny:

- **`MusicPlayerBackend`** (the current back end). It holds the playlist, the selected index, the playing and paused flags, the song length, the pause offset, the shuffle flag and the list of liked songs. It tells the window what changed through callbacks.
- **`MusicPlayer`** (the earlier single-window player). It runs the same state machine inside its Tk callbacks.
- **The launcher.** It reads a `KEY=value` configuration file and decides which packages to upgrade.

Each class is a Dafny `class` with the source's fields.

- **The shared state.** The playback fields are collected by `State()` into one `PlayerState.Snapshot` value. It also holds `musicLoaded`, the mixer's own record of whether it holds a track, because `play()` raises "music not loaded" without one.
- **Methods.** Every method states its new state as a pure transition of the old one (`PlayerState.AfterLoad`, `AfterAdd`, `AfterPlayPause`, `AfterStep`, `AfterSeek`, …).
- **Lemmas.** The lemmas about those transitions carry what the source promises.
- **The invariant.** `PlayerState.Consistent` is the invariant every method keeps:
  - a paused player is playing;
  - the index selects a track whenever there is one;
  - an empty playlist plays nothing and records no length.

What the outside world does is an input:

- **The file system** is a `Media.Disk` value. It holds:
  - the folder listings;
  - the other existing paths;
  - the files the mixer refuses to open, with the error text;
  - the durations mutagen reads.
- **The mixer clock and busy flag.** `get_pos()` is an integer parameter (ms) and `get_busy()` a boolean parameter.
- **`random.choice`** is a `draw: nat` parameter that picks `others[draw % |others|]`. The lemma `ShufflePickReaches` shows that every allowed index can be drawn.
- **Mixer commands** (`load`, `play`, `pause`, `unpause`, `stop`) are appended to a `mixer` log.
- **Back-end callbacks** are appended to a `notices` log of `Media.Notice` values. The old window's message boxes go to an `alerts` log of their texts.
- **Exceptions.** An exception that escapes a call is the `Raised` case of `Media.Call`.

The helper modules model what the core borrows from Python:

- `str.strip` with Python's whitespace set;
- `str.lower` on ASCII;
- `endswith`;
- decimal `str(int)`;
- POSIX `os.path.join` and `os.path.basename`;
- string ordering;
- `sorted`, modelled as an insertion sort whose result is proved to be the only sorted permutation.

The queries `get_current_position`, `is_song_finished` and `is_song_liked` are functions of the state and the mixer reading (`GetCurrentPosition`, `IsSongFinished`, `IsSongLiked`). What they return is stated by `PlayerState.PositionOfStoppedOrPaused`, `PlayerState.FinishedOnlyWhilePlaying`, `SeekSetsPosition` and the contract of `ToggleLikeSong`.

Times are Dafny `real`s. Python's `%` on integers and Dafny's agree here, because every modulus is a positive playlist length.

## Model

| member | source | states |
|---|---|---|
| Text.Strip | Ubuntu/src/lecteur.py:19 | the result is what is left once a run of Python whitespace is cut from each end; it neither starts nor ends with whitespace |
| Text.LStrip | Ubuntu/src/lecteur.py:19 | the result is a suffix of the input; what was cut is all whitespace; it does not start with whitespace |
| Text.RStrip | Ubuntu/src/lecteur.py:19 | the result is a prefix of the input; what was cut is all whitespace; it does not end with whitespace |
| Text.IsSpace | Ubuntu/src/music_player_backend.py:445 | Python's `str.isspace()` set, the characters `strip()` removes |
| Text.StripOfTrimmed | Ubuntu/src/lecteur.py:19 | a string with no surrounding whitespace is its own strip |
| Text.StripIdempotent | Ubuntu/src/music_player_backend.py:445 | stripping twice is stripping once |
| Text.StripKeepsCharacters | Ubuntu/src/music_player_backend.py:444-445 | stripping introduces no character, so a stripped clean name stays clean |
| Text.Lower | Ubuntu/src/lecteur.py:40 | same length, each ASCII capital replaced by its small letter, every other character kept |
| Text.IndexOf | Ubuntu/src/lecteur.py:23 | the position of the first occurrence: it holds the element and nothing before it does |
| Text.NatToStringRoundTrip | Ubuntu/src/music_player_backend.py:72 | the decimal text of a count is all digits, has no leading zero, and reads back as the count |
| Text.Join | Ubuntu/src/music_player_backend.py:58 | POSIX `os.path.join`: an absolute second part replaces the first, otherwise exactly one '/' separates them |
| Text.EndsWith | Ubuntu/src/music_player_backend.py:57 | `str.endswith`: the suffix is the end of the string |
| Text.NatToString | Ubuntu/src/music_player_backend.py:72 | decimal digits of a count, never empty and without a leading zero |
| Text.IntToString | Ubuntu/src/music_player_backend.py:72 | `str(int)`: a '-' for a negative number, then its decimal digits |
| Text.BaseName | Ubuntu/src/music_player_backend.py:167 | the base name holds no '/' and is no longer than the path |
| Text.BaseNameIsLastComponent | Ubuntu/src/music_player_backend.py:167 | the base name is a suffix of the path, preceded by '/' unless it is the whole path |
| Text.BaseNameOfJoin | Ubuntu/src/music_player_backend.py:58 | joining a folder and an entry name without '/' and taking the base name gives the entry name back |
| Text.BaseNameOfSuffix | Ubuntu/src/music_player_backend.py:58 | a name without '/' after a directory ending in '/' is the base name |
| StringOrder.LessOrEqual | Ubuntu/src/music_player_backend.py:56 | Python's `a <= b` on `str`, the order `sorted` uses: code point by code point, a proper prefix first |
| StringOrder.LessOrEqualReflexive | Ubuntu/src/music_player_backend.py:56 | every string is at most itself |
| StringOrder.LessOrEqualTotal | Ubuntu/src/music_player_backend.py:56 | any two strings are ordered one way or the other |
| StringOrder.LessOrEqualTransitive | Ubuntu/src/music_player_backend.py:56 | string order is transitive |
| StringOrder.LessOrEqualAntisymmetric | Ubuntu/src/music_player_backend.py:56 | two strings each at most the other are equal |
| StringOrder.Insert | Ubuntu/src/music_player_backend.py:56 | inserting into a sorted list keeps it sorted and adds exactly one copy of the element |
| StringOrder.Sort | Ubuntu/src/music_player_backend.py:56 | `sorted(listing)` is sorted and a permutation of the listing |
| StringOrder.SortedPermutationIsUnique | Ubuntu/src/music_player_backend.py:56 | two sorted permutations of one multiset are equal, so any correct sort gives the same list |
| Clock.WholeSeconds | Ubuntu/src/music_player_backend.py:481-482 | `int(s % 60)` is below 60, and with the minutes it brackets the duration to within one second |
| Clock.TwoDigits | Ubuntu/src/music_player_backend.py:483 | `:02d` of a number below 60 is exactly two digits that read back as the number |
| Clock.WholeMinutes | Ubuntu/src/music_player_backend.py:481 | `int(seconds // 60)`: the floor of the time over 60 |
| Clock.FormatTime | Ubuntu/src/music_player_backend.py:479-483 | `format_time`: the minutes, ':' and the two-digit seconds; what the text means is stated by `FormatTimeRoundTrip` |
| Clock.FormatTimeRoundTrip | Ubuntu/lecteur.py:766-769 | for a non-negative time the text splits at its only ':' into decimal minutes and two digits of seconds below 60 that bracket the time within a second |
| Media.Disk.Exists | Ubuntu/src/music_player_backend.py:51 | `os.path.exists`: a listed directory or a known file |
| Media.Disk.ListDirError | Ubuntu/src/music_player_backend.py:56 | the failure of `os.listdir` for a path that is no listed directory (the text is approximate, see "## Left out") |
| Media.Disk.Duration | Ubuntu/src/music_player_backend.py:171-175 | the length mutagen reads, or 0 when reading it fails |
| PlayerState.Consistent | Ubuntu/src/music_player_backend.py:26-32 | the invariant of the playback fields: paused implies playing, the index selects a track of a non-empty playlist, an empty playlist plays nothing and has no length, and a playing player has a track in the mixer |
| PlayerState.Successor | Ubuntu/src/music_player_backend.py:279 | `(i + 1) % n` is an index, the next one, and 0 after the last |
| PlayerState.Predecessor | Ubuntu/src/music_player_backend.py:235 | `(i - 1) % n` is a non-negative index, the previous one, and the last one before index 0 |
| PlayerState.PredecessorUndoesSuccessor | Ubuntu/src/music_player_backend.py:226-236 | previous after next, and next after previous, return to the same index |
| PlayerState.AdvanceVisitsInOrder | Ubuntu/src/music_player_backend.py:226-230 | k non-shuffle `next` steps from i land on `(i + k) % n` |
| PlayerState.OtherIndices | Ubuntu/src/music_player_backend.py:275 | the candidate list has n-1 entries when i is an index, and lists 0..n-1 in order with i skipped |
| PlayerState.OtherIndicesMembers | Ubuntu/src/music_player_backend.py:275 | an index is a candidate exactly when it is in range and differs from i |
| PlayerState.ShufflePick | Ubuntu/src/music_player_backend.py:276 | every draw gives an in-range index other than the current one |
| PlayerState.ShufflePickReaches | Ubuntu/src/music_player_backend.py:274-276 | every in-range index other than the current one is given by some draw |
| PlayerState.NextIndex | Ubuntu/src/music_player_backend.py:271-279 | the next index is in range; with shuffle it differs from i on a longer list and is 0 on a one-track list; without shuffle it is the successor |
| PlayerState.Position | Ubuntu/src/music_player_backend.py:283-292 | `get_current_position()` given the `get_pos()` reading: the offset while paused, the offset plus the elapsed time while playing, 0 otherwise |
| PlayerState.IsFinished | Ubuntu/src/music_player_backend.py:294-296 | `is_song_finished()` given the `get_busy()` reading |
| PlayerState.PositionOfStoppedOrPaused | Ubuntu/src/music_player_backend.py:283-292 | a stopped player is at 0; a paused one is at its offset whatever the mixer clock says |
| PlayerState.FinishedOnlyWhilePlaying | Ubuntu/src/music_player_backend.py:294-296 | a song is finished exactly when the player is actively playing and the mixer is idle |
| PlayerState.NewEntries | Ubuntu/src/music_player_backend.py:80 | the kept candidates are exactly those not already in the playlist, never more than offered |
| PlayerState.NewEntriesOfConcat | Ubuntu/src/music_player_backend.py:80 | filtering a concatenation filters each part |
| PlayerState.NothingNewFromListed | Ubuntu/src/music_player_backend.py:80-83 | candidates that are all listed add nothing |
| PlayerState.AddingAgainAddsNothing | Ubuntu/src/music_player_backend.py:80-83 | offering the same candidates again after adding them adds nothing |
| PlayerState.AddingKeepsNoDuplicates | Ubuntu/src/music_player_backend.py:80-83 | a duplicate-free playlist stays so when a duplicate-free batch is added |
| PlayerState.NewEntriesNoDuplicates | Ubuntu/src/music_player_backend.py:80 | filtering keeps a duplicate-free batch duplicate-free |
| PlayerState.RepeatedCandidateIsAddedTwice | Ubuntu/src/music_player_backend.py:80 | a path given twice in one batch is appended twice |
| PlayerState.HasMp3Extension | Ubuntu/src/music_player_backend.py:57 | `file.lower().endswith('.mp3')` |
| PlayerState.FolderAdditions | Ubuntu/src/music_player_backend.py:55-60 | the paths `add_folder` appends; stated by `FolderAdditionsAreSortedMp3Entries` and `FolderAdditionsComplete` |
| PlayerState.Mp3Paths | Ubuntu/src/music_player_backend.py:56-58 | there are no more joined MP3 paths than names; which paths they are is stated by `Mp3PathsEntry`, `Mp3PathsAreMp3Entries` and `Mp3PathsComplete` |
| PlayerState.Mp3PathsComplete | Ubuntu/src/music_player_backend.py:56-58 | every name of the listing that ends in ".mp3" in any letter case gives its joined path |
| PlayerState.Mp3PathsEntry | Ubuntu/src/music_player_backend.py:58 | every kept path is the folder joined to one of the names |
| PlayerState.Mp3PathsOfConcat | Ubuntu/src/music_player_backend.py:56-58 | the MP3 paths of a concatenation are those of each part |
| PlayerState.Mp3PathsAreMp3Entries | Ubuntu/src/music_player_backend.py:56-58 | every kept path's base name is a listed entry ending in ".mp3" in any letter case |
| PlayerState.FolderAdditionsAreSortedMp3Entries | Ubuntu/src/music_player_backend.py:55-60 | what `add_folder` appends is sorted, not yet listed, and made of MP3 entries of the folder |
| PlayerState.FolderAdditionsComplete | Ubuntu/src/music_player_backend.py:55-60 | conversely, every MP3 entry of the folder whose joined path is not yet listed is appended |
| PlayerState.NewEntriesSorted | Ubuntu/src/music_player_backend.py:59 | filtering keeps the candidates sorted |
| PlayerState.Mp3PathsSorted | Ubuntu/src/music_player_backend.py:56-58 | joining sorted entry names to one folder keeps them sorted |
| PlayerState.JoinKeepsOrder | Ubuntu/src/music_player_backend.py:58 | joining two entry names to the same folder keeps their order |
| PlayerState.CollectMp3Files | Ubuntu/src/music_player_backend.py:55-60 | the loop builds exactly the not-yet-listed MP3 paths of the names, in order |
| PlayerState.CanLoad | Ubuntu/src/music_player_backend.py:163-166 | `load_song` succeeds: the index is in range and the mixer opens the file |
| PlayerState.AfterLoad | Ubuntu/src/music_player_backend.py:161-198 | the playback state after `load_song`; stated by `AfterLoadState` and `AfterLoadKeepsConsistent` |
| PlayerState.LoadCalls | Ubuntu/src/music_player_backend.py:166-179 | the mixer commands of `load_song`: the load, then the play when autoplay is asked |
| PlayerState.AfterLoadKeepsConsistent | Ubuntu/src/music_player_backend.py:161-198 | loading keeps the invariant |
| PlayerState.AfterLoadState | Ubuntu/src/music_player_backend.py:171-185 | a successful load resets the offset, clears pause, leaves a track in the mixer and plays exactly when asked, leaving playlist, index and shuffle alone |
| PlayerState.AfterAdd | Ubuntu/src/music_player_backend.py:62-69 | the playback state after an addition; stated by `AfterAddEffect` and `AfterAddKeepsConsistent` |
| PlayerState.AddCalls | Ubuntu/src/music_player_backend.py:67-69 | the mixer commands of an addition: those of loading track 0 when the playlist was empty |
| PlayerState.AfterAddKeepsConsistent | Ubuntu/src/music_player_backend.py:62-69 | adding keeps the invariant |
| PlayerState.AfterAddEffect | Ubuntu/src/music_player_backend.py:62-69 | the old playlist is an unchanged prefix; track 0 is selected and loaded without autoplay exactly when the playlist was empty; otherwise no playback field changes |
| PlayerState.AfterPlayPause | Ubuntu/src/music_player_backend.py:200-224 | the playback state after `play_pause`; stated by `PlayPauseCycle` |
| PlayerState.PlayPauseCalls | Ubuntu/src/music_player_backend.py:207-220 | the mixer command of `play_pause`: play, pause or unpause; none when `play()` raises |
| PlayerState.FailedFirstLoadBlocksPlay | Ubuntu/src/music_player_backend.py:161-224 | when the first file added to an empty, never-loaded player cannot be opened, the next `play_pause` raises and changes nothing |
| PlayerState.MixerKeepsTrack | Ubuntu/src/music_player_backend.py:167-250 | once the mixer holds a track every transition keeps one, so `play()` cannot raise "music not loaded" again |
| PlayerState.AfterPlayPauseKeepsConsistent | Ubuntu/src/music_player_backend.py:200-224 | play/pause keeps the invariant |
| PlayerState.PlayPauseCycle | Ubuntu/src/music_player_backend.py:207-220 | stopped goes to playing from 0 when the mixer holds a track and changes nothing when it holds none; playing goes to paused at the current position, paused to playing at the same offset; nothing else moves |
| PlayerState.PauseFreezesPosition | Ubuntu/src/music_player_backend.py:211-213 | after a pause the position is the one at the pause, whatever the mixer reports later |
| PlayerState.AfterStep | Ubuntu/src/music_player_backend.py:226-236 | the playback state after next or previous; stated by `AfterStepEffect` |
| PlayerState.AfterStepKeepsConsistent | Ubuntu/src/music_player_backend.py:226-236 | next and previous keep the invariant |
| PlayerState.AfterStepEffect | Ubuntu/src/music_player_backend.py:226-236 | after a step the index is the chosen one, the playlist is unchanged, and, when the new track opens, it is unpaused at 0 and plays exactly when the player was playing |
| PlayerState.AfterSeek | Ubuntu/src/music_player_backend.py:244-264 | the playback state after a seek; stated by `SeekSetsPosition` |
| PlayerState.SeekCalls | Ubuntu/src/music_player_backend.py:250-262 | the mixer commands of a seek: stop, load, play from p, and pause unless it was actively playing |
| PlayerState.AfterSeekKeepsConsistent | Ubuntu/src/music_player_backend.py:244-262 | seeking keeps the invariant |
| PlayerState.SeekSetsPosition | Ubuntu/src/music_player_backend.py:246-262 | a seek from a stopped or paused player leaves it paused at exactly p whatever the mixer clock says; from an actively playing one it plays on, p plus the mixer clock since the restart |
| PlayerState.AfterToggleShuffle | Ubuntu/src/music_player_backend.py:266-269 | the state with the shuffle flag flipped |
| PlayerState.ToggleShuffleTwice | Ubuntu/src/music_player_backend.py:266-269 | toggling shuffle twice restores the state, and toggling keeps the invariant |
| Backend.LoadNotices | Ubuntu/src/music_player_backend.py:161-198 | the callbacks of `load_song`: the error, or the song and the playback flags |
| Backend.LoadMessage | Ubuntu/src/music_player_backend.py:161-198 | the message `load_song` returns: "Index invalide", the error, or the base name |
| Backend.AddNotices | Ubuntu/src/music_player_backend.py:62-69 | the callbacks of an addition: the new playlist, then those of loading track 0 when it was empty |
| Backend.AddSteps | Ubuntu/src/music_player_backend.py:62-69 | an addition is the append and its notice, then the load of track 0 exactly when the playlist was empty |
| Backend.AfterClear | Ubuntu/src/music_player_backend.py:95-104 | the state after `clear_playlist`; stated by `AfterClearIsInitial` |
| Backend.AfterClearIsInitial | Ubuntu/src/music_player_backend.py:95-104 | clearing gives the initial state except for the shuffle flag and the mixer's track, which `stop()` keeps; stopped and consistent |
| Backend.RemoveFirst | Ubuntu/src/music_player_backend.py:462 | `list.remove(x)` drops exactly the first occurrence, and leaves a list without x unchanged |
| Backend.RemoveFirstMultiset | Ubuntu/src/music_player_backend.py:462 | removing a present element takes exactly one copy away |
| Backend.ToggleLike | Ubuntu/src/music_player_backend.py:459-466 | the liked list after `toggle_like_song`; stated by `ToggleLikeTwice` and `ToggleLikeFlipsMembership` |
| Backend.ToggleLikeTwice | Ubuntu/src/music_player_backend.py:459-466 | toggling a song twice restores the liked list if it was absent, and the same songs if it was liked once |
| Backend.ToggleLikeFlipsMembership | Ubuntu/src/music_player_backend.py:459-470 | on a duplicate-free list the toggle keeps it duplicate-free, and the song is liked afterwards exactly when it was not before |
| Backend.RemoveForbidden | Ubuntu/src/music_player_backend.py:444 | the `re.sub` step: no longer than the input, no forbidden character remains, and a clean name comes back unchanged |
| Backend.RemoveForbiddenCounts | Ubuntu/src/music_player_backend.py:444 | every forbidden character is deleted and every other character occurs exactly as often as in the input |
| Backend.RemoveForbiddenOfConcat | Ubuntu/src/music_player_backend.py:444 | the deletion works part by part on a concatenation, so the kept characters stay in their order |
| Backend.Cleaned | Ubuntu/src/music_player_backend.py:444-445 | the cleaned name has no forbidden character and does not start with whitespace |
| Backend.SanitizeFilename | Ubuntu/src/music_player_backend.py:442-446 | at most 200 characters, none forbidden, a prefix of the cleaned name, all of it when it fits, never starting with whitespace |
| Backend.SanitizeKeepsCleanNames | Ubuntu/src/music_player_backend.py:442-446 | a name already clean, trimmed and short enough is kept as it is |
| Backend.DownloadTarget | Ubuntu/src/music_player_backend.py:366-368 | the output path of a download: the sanitized title plus ".mp3" in the download folder |
| Backend.DownloadTargetIsMp3 | Ubuntu/src/music_player_backend.py:366-368 | the downloaded file's base name is the sanitized title plus ".mp3", which `add_folder` would pick up |
| Backend.Mp3NameOfJoin | Ubuntu/src/music_player_backend.py:368 | a stem without '/' plus ".mp3", joined to a folder, has that base name and the MP3 extension |
| Backend.ExistingPaths | Ubuntu/src/music_player_backend.py:128 | the kept liked paths are exactly those that exist, never more than were liked; one liked path is kept exactly when it exists |
| Backend.ExistingPathsOfConcat | Ubuntu/src/music_player_backend.py:128 | the filter distributes over concatenation, so the liked order and repeats are kept |
| Backend.MusicPlayerBackend.constructor | Ubuntu/src/music_player_backend.py:21-46 | the initial state, consistent, with the liked list read from disk and no logs yet |
| Backend.MusicPlayerBackend.LoadSong | Ubuntu/src/music_player_backend.py:161-198 | the new state, mixer commands and notices are those of `AfterLoad`; success exactly when the index is valid and the file opens; the message is the error or the base name |
| Backend.MusicPlayerBackend.Extend | Ubuntu/src/music_player_backend.py:62-69 | the new state, commands and notices are those of `AfterAdd` |
| Backend.MusicPlayerBackend.AddFolder | Ubuntu/src/music_player_backend.py:50-73 | an invalid folder returns the error and changes nothing; a path that is no directory raises; otherwise the sorted unlisted MP3 entries are appended with the count message, or nothing changes |
| Backend.MusicPlayerBackend.AddFiles | Ubuntu/src/music_player_backend.py:75-93 | an empty selection or one already listed changes nothing; otherwise the unlisted paths are appended with the count message |
| Backend.MusicPlayerBackend.LoadLikedSongs | Ubuntu/src/music_player_backend.py:122-147 | no liked songs, none existing, or all listed each give their message and change nothing; otherwise the existing unlisted ones are appended |
| Backend.MusicPlayerBackend.ClearPlaylist | Ubuntu/src/music_player_backend.py:95-110 | the state of `AfterClear`, one stop command, and the three notices in the source's order |
| Backend.MusicPlayerBackend.PlayPause | Ubuntu/src/music_player_backend.py:200-224 | false with an error notice on an empty playlist; "music not loaded" raised, without a notice, when a stopped player's mixer holds no track; otherwise true, the `AfterPlayPause` transition, its mixer command and the state notice |
| Backend.MusicPlayerBackend.NextSong | Ubuntu/src/music_player_backend.py:226-230 | on a non-empty playlist the index becomes `NextIndex` and the track reloads, playing exactly when it was; otherwise nothing changes |
| Backend.MusicPlayerBackend.PreviousSong | Ubuntu/src/music_player_backend.py:232-236 | on a non-empty playlist the index becomes the predecessor, whatever the shuffle flag, and the track reloads, playing exactly when it was |
| Backend.MusicPlayerBackend.PlayAtIndex | Ubuntu/src/music_player_backend.py:238-242 | an index in range is selected and loaded with autoplay; any other changes nothing |
| Backend.MusicPlayerBackend.Seek | Ubuntu/src/music_player_backend.py:244-264 | false and no change outside the guard; a file the mixer cannot reopen raises after the stop; otherwise the `AfterSeek` state, and from a stopped or paused player the position is then p |
| Backend.MusicPlayerBackend.ToggleShuffle | Ubuntu/src/music_player_backend.py:266-269 | the flag flips, the new value is returned and the invariant is kept |
| Backend.MusicPlayerBackend.GetCurrentPosition | Ubuntu/src/music_player_backend.py:283-292 | `Position` of the state; stated by `PositionOfStoppedOrPaused`, `PauseFreezesPosition` and `SeekSetsPosition` |
| Backend.MusicPlayerBackend.IsSongFinished | Ubuntu/src/music_player_backend.py:294-296 | `IsFinished` of the state; stated by `FinishedOnlyWhilePlaying` |
| Backend.MusicPlayerBackend.GetNextSongIndex | Ubuntu/src/music_player_backend.py:271-279 | with shuffle and at most one track 0; without shuffle on an empty list the modulo by zero raises; otherwise `NextIndex` |
| Backend.MusicPlayerBackend.IsSongLiked | Ubuntu/src/music_player_backend.py:468-470 | membership in the liked list; what it answers after a toggle is in the contract of `ToggleLikeSong` |
| Backend.MusicPlayerBackend.ToggleLikeSong | Ubuntu/src/music_player_backend.py:459-466 | returns true exactly when the song was not liked; the liked list is toggled; the song is then liked exactly when true was returned or a second copy remains |
| Backend.MusicPlayerBackend.AppendDownloaded | Ubuntu/src/music_player_backend.py:395-402 | a produced file already listed changes nothing; otherwise it is appended as a one-path addition |
| Lecteur.LoadAlerts | Ubuntu/lecteur.py:611-647 | the message box of `load_song`: shown exactly when the track cannot be opened |
| Lecteur.AddAlerts | Ubuntu/lecteur.py:577-584 | the message boxes of an addition: those of loading track 0 when the playlist was empty |
| Lecteur.AfterClear | Ubuntu/lecteur.py:547-553 | the state after `clear_playlist`, the pause offset kept; stated by `AfterClearIsInitial` |
| Lecteur.AfterClearIsInitial | Ubuntu/lecteur.py:547-553 | clearing gives the initial state except for the shuffle flag, the pause offset and the mixer's track; stopped and consistent |
| Lecteur.SliderPosition | Ubuntu/lecteur.py:714-717 | no position for a zero width; otherwise the clamped fraction of the length, 0 left of the slider, the length right of it, within [0, length] |
| Lecteur.SliderArithmetic | Ubuntu/lecteur.py:716-717 | the percentage round trip gives the fraction of the length, and stays within [0, length] |
| Lecteur.MusicPlayer.constructor | Ubuntu/lecteur.py:20-45 | the initial state, not seeking, slider 580 pixels wide, no logs |
| Lecteur.MusicPlayer.LoadSong | Ubuntu/lecteur.py:611-647 | the state and mixer commands of `AfterLoad`, and the error box when the file does not open |
| Lecteur.MusicPlayer.Extend | Ubuntu/lecteur.py:577-584 | the state and commands of `AfterAdd` |
| Lecteur.MusicPlayer.AddFolder | Ubuntu/lecteur.py:561-586 | a cancelled dialog changes nothing; a path that is no directory raises; otherwise the sorted unlisted MP3 entries are appended, or the warning is shown |
| Lecteur.MusicPlayer.AddFiles | Ubuntu/lecteur.py:588-609 | a cancelled dialog changes nothing; otherwise the unlisted paths are appended, or the info box is shown |
| Lecteur.MusicPlayer.ClearPlaylist | Ubuntu/lecteur.py:547-559 | the state of `AfterClear` and one stop command |
| Lecteur.MusicPlayer.PlayPause | Ubuntu/lecteur.py:649-669 | the warning and no change on an empty playlist; "music not loaded" raised out of the callback when a stopped player's mixer holds no track; otherwise the `AfterPlayPause` transition and its mixer command |
| Lecteur.MusicPlayer.GetCurrentPosition | Ubuntu/lecteur.py:735-743 | `Position` of the state; stated by `PositionOfStoppedOrPaused` |
| Lecteur.MusicPlayer.GetNextSongIndex | Ubuntu/lecteur.py:533-545 | 0 on an empty playlist, otherwise `NextIndex` |
| Lecteur.MusicPlayer.NextSong | Ubuntu/lecteur.py:671-674 | on a non-empty playlist the index becomes `NextIndex` and the track reloads, playing exactly when it was |
| Lecteur.MusicPlayer.PreviousSong | Ubuntu/lecteur.py:676-679 | on a non-empty playlist the index becomes the predecessor and the track reloads, playing exactly when it was |
| Lecteur.MusicPlayer.PlaySelected | Ubuntu/lecteur.py:681-685 | the first selected row is selected and loaded with autoplay; no selection changes nothing |
| Lecteur.MusicPlayer.OnCanvasResize | Ubuntu/lecteur.py:687-688 | the slider takes the new width and nothing else changes |
| Lecteur.MusicPlayer.OnSliderClick | Ubuntu/lecteur.py:700-701 | the slider is held and nothing else changes |
| Lecteur.MusicPlayer.OnSliderRelease | Ubuntu/lecteur.py:713-733 | no song length: released, no change; zero width or an unopenable file: the exception escapes with the slider still held; otherwise released and the `AfterSeek` state at the slider position |
| Lecteur.MusicPlayer.UpdateSlider | Ubuntu/lecteur.py:745-764 | a track that finishes while the slider is not held advances as `next_song` does, playing; otherwise nothing changes |
| Lecteur.MusicPlayer.ToggleShuffle | Ubuntu/lecteur.py:524-526 | the flag flips, nothing else changes and the invariant is kept |
| Lecteur.AutoAdvanceKeepsPlaying | Ubuntu/lecteur.py:758-761 | a finished track implies a non-empty playlist; the next index is selected and, if it opens, plays from its start |
| Launcher.SplitSetting | Ubuntu/src/lecteur.py:21-24 | no setting exactly for an empty line, a comment or a line without '='; the key holds no '=' and key and value are trimmed |
| Launcher.ParseLine | Ubuntu/src/lecteur.py:19-24 | the same, for the stripped line |
| Launcher.ParseLineRoundTrip | Ubuntu/src/lecteur.py:19-24 | a line `key=value` with a trimmed key that has no '=' and starts no comment, and a trimmed value, reads back as that setting, '=' in the value included; the key may be empty, as in `=value` |
| Launcher.SplitSettingOfSetting | Ubuntu/src/lecteur.py:23-24 | the same for an already stripped line |
| Launcher.SplitAtFirstEquals | Ubuntu/src/lecteur.py:23 | the split is at the first '=' |
| Launcher.Parsed | Ubuntu/src/lecteur.py:18-24 | each line of the file parsed, one entry per line |
| Launcher.Apply | Ubuntu/src/lecteur.py:24 | the settings after applying the parsed lines in order |
| Launcher.Configure | Ubuntu/src/lecteur.py:11-24 | the defaults updated by the lines |
| Launcher.LoadedConfig | Ubuntu/src/lecteur.py:8-28 | `load_config()`: the defaults without a file, otherwise `Configure` of its lines |
| Launcher.ParsedStep | Ubuntu/src/lecteur.py:18 | one more line parses one more setting |
| Launcher.ApplyStep | Ubuntu/src/lecteur.py:24 | one more setting updates its key |
| Launcher.ConfigureStep | Ubuntu/src/lecteur.py:18-24 | reading one more line applies its setting, if any, to the settings so far |
| Launcher.LastSettingWins | Ubuntu/src/lecteur.py:24 | a key's value is the one its last setting gives it |
| Launcher.UnsetKeyKeepsValue | Ubuntu/src/lecteur.py:11-13 | a key no line sets keeps its starting value, or stays absent |
| Launcher.ConfiguredKeys | Ubuntu/src/lecteur.py:11-24 | the keys are the starting ones and those some line sets |
| Launcher.LoadConfig | Ubuntu/src/lecteur.py:8-28 | the loop computes the defaults updated by the lines read |
| Launcher.Dependencies | Ubuntu/src/lecteur.py:37-41 | pygame and mutagen first, then nothing but yt-dlp, which is in the list exactly when the setting is present and lowers to "true" |
| Launcher.CheckDependencies | Ubuntu/src/lecteur.py:31-41 | the package list is `Dependencies` of the loaded configuration |
| Launcher.NoConfigMeansNoDownloader | Ubuntu/src/lecteur.py:11-15 | without a file only the two mandatory packages are upgraded |
| Launcher.DownloaderFollowsLastSetting | Ubuntu/src/lecteur.py:24-41 | yt-dlp is upgraded exactly when the last `YTDLP_INSTALLED` setting lowers to "true" |

## Left out

- Widgets. The Tk window and its label, button and list-box updates are not modelled. The same goes for `update_slider_position`, the drag handlers `on_slider_drag` and `update_slider_from_mouse`, and the rescheduling through `root.after`. Of `on_canvas_resize` and `update_slider` only the state changes are kept.
- The front end, `Ubuntu/music_player_frontend.py`, is not part of this model.
- The downloads run on threads and call yt-dlp and pip. These are not modelled: `download_from_youtube` in both files, `check_ytdlp_installed`, `install_ytdlp`, `_get_video_title`, `_extract_video_id` (a regular expression search), and the `pip install` in `check_dependencies`. Only the end of a back-end download is kept: the output path (`Backend.DownloadTarget`) and the append step (`AppendDownloaded`).
- JSON and file I/O are inputs. The constructor receives the liked list that `_load_liked_songs` read; the second definition of `_load_liked_songs`, the one in force, returns an empty list on a decoding error. `_save_liked_songs` and `cleanup` are not modelled. The configuration file is given as its lines, or as `None` when it is absent.
- `get_playlist_info` and `get_playback_info` only build dictionaries for the window and are not modelled.
- Callbacks are assumed registered. `notices` records each call the listener receives; an unset callback would receive nothing.
- Aliasing is not modelled. `on_playlist_updated` receives the live playlist object, and the model passes a copy.
- Floating point is modelled as exact `real` arithmetic. The duration mutagen reads, with its fallback to 0, is `Disk.Duration`.
- `load_song` is assumed to fail only in `pygame.mixer.music.load`; an exception raised later, inside its own `play()`, is not modelled; that `play()` comes right after a successful load, so the mixer holds a track there. The `play()` of `play_pause` is modelled: it raises "music not loaded" while the mixer holds no track (`Snapshot.musicLoaded`, set by the first successful load). Which track the mixer holds is not tracked, so after a failed load the model does not say that `play()` restarts the previously loaded file.
- The `print` of a configuration read error is not modelled. A read error midway through the file is modelled as the lines read before it.
- `Media.Disk.ListDirError`: only the failure of `os.listdir` is modelled, not its exact message. The text is fixed to the Errno 2 or Errno 20 form with the path in single quotes. Python writes the path with `repr`, so a path holding `'` is shown in double quotes and escapes are written out. An existing directory that cannot be read raises Errno 13, which the `Disk` record can only express as a file, and so gets the Errno 20 text.
- File names are `seq<char>`. A Dafny `char` cannot hold the lone surrogates that `os.listdir` returns for bytes it cannot decode, so such names are not modelled.
- `Text.Lower` folds only ASCII letters. This is exact for the comparisons the core makes ("true", ".mp3"), because no other character lower-cases to one of those ASCII letters.
- `Backend.ToggleLikeTwice`: the source cannot restore a list in which the song was liked, because it moves to the end. So the lemma promises the same list only for a song that was absent, and the same multiset when it was liked once.
- `Lecteur.MusicPlayer.PlaySelected` requires every selected row to be a playlist index, because the list box always mirrors the playlist.
- `Lecteur.MusicPlayer.OnSliderRelease` is not weaker than the source: the slider stays held only when an exception escapes the callback (a zero width, or a file the mixer cannot reopen). In every other case it is released.
