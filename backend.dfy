/**
 * `MusicPlayerBackend`: the playlist and playback state manager of the
 * current player. It owns the playlist, the playback flags and times, the
 * shuffle flag and the liked-songs list; it drives the audio mixer and
 * notifies a listener of every visible change.
 */
module Backend {
  import opened Wrappers
  import opened Text
  import opened Media
  import opened PlayerState
  import StringOrder

  // ===== notifications =====

  /** What `load_song` tells the listener: an error, or the new song and the playback flags. */
  function LoadNotices(s: Snapshot, index: int, autoplay: bool, disk: Disk): seq<Notice> {
    if !(0 <= index < |s.playlist|) then []
    else if s.playlist[index] in disk.loadErrors then
      [Failure("Impossible de charger la chanson: " + disk.loadErrors[s.playlist[index]])]
    else
      [SongChanged(Some(BaseName(s.playlist[index])), disk.Duration(s.playlist[index]), index),
       PlaybackStateChanged(autoplay, false)]
  }

  /** The message `load_song` returns: the error for a bad index or an unreadable file, otherwise the file's base name. */
  function LoadMessage(s: Snapshot, index: int, disk: Disk): string {
    if !(0 <= index < |s.playlist|) then "Index invalide"
    else if s.playlist[index] in disk.loadErrors then disk.loadErrors[s.playlist[index]]
    else BaseName(s.playlist[index])
  }

  /** What an addition tells the listener: the new playlist, then the first load if the playlist was empty. */
  function AddNotices(s: Snapshot, added: seq<string>, disk: Disk): seq<Notice> {
    if added == [] then []
    else
      [PlaylistUpdated(s.playlist + added)]
      + (if s.playlist == [] then LoadNotices(s.(playlist := s.playlist + added, currentIndex := 0), 0, false, disk) else [])
  }

  /** An addition in two steps: append and notify, then load track 0 when the playlist was empty. */
  lemma AddSteps(s: Snapshot, added: seq<string>, disk: Disk)
    requires added != []
    ensures var t := s.(playlist := s.playlist + added);
      && (s.playlist == [] <==> |t.playlist| == |added|)
      && (s.playlist != [] ==> AfterAdd(s, added, disk) == t && AddCalls(s, added, disk) == [] && AddNotices(s, added, disk) == [PlaylistUpdated(t.playlist)])
      && (s.playlist == [] ==>
            && AfterAdd(s, added, disk) == AfterLoad(t.(currentIndex := 0), 0, false, disk)
            && AddCalls(s, added, disk) == LoadCalls(t.(currentIndex := 0), 0, false, disk)
            && AddNotices(s, added, disk) == [PlaylistUpdated(t.playlist)] + LoadNotices(t.(currentIndex := 0), 0, false, disk))
  {
  }

  /** `clear_playlist()`: everything back to its initial value except the shuffle flag. */
  function AfterClear(s: Snapshot): Snapshot {
    s.(playlist := [], currentIndex := 0, isPlaying := false, isPaused := false, songLength := 0.0, pausePosition := 0.0)
  }

  lemma AfterClearIsInitial(s: Snapshot)
    ensures AfterClear(s) == Initial.(shuffleMode := s.shuffleMode, musicLoaded := s.musicLoaded)
    ensures Consistent(AfterClear(s)) && Stopped(AfterClear(s))
  {
  }

  // ===== liked songs =====

  /** `list.remove(x)`: drops the first occurrence of `x`, if there is one. */
  function RemoveFirst(s: seq<string>, x: string): (r: seq<string>)
    ensures x !in s ==> r == s
    ensures x in s ==> r == s[..IndexOf(s, x)] + s[IndexOf(s, x) + 1..]
  {
    if s == [] then []
    else if s[0] == x then s[1..]
    else
      IndexOfPastHead(s, x);
      [s[0]] + RemoveFirst(s[1..], x)
  }

  lemma IndexOfPastHead(s: seq<string>, x: string)
    requires s != [] && s[0] != x
    ensures x in s ==> var k := IndexOf(s, x);
      && s[..k] == [s[0]] + s[1..][..k - 1]
      && s[k + 1..] == s[1..][k..]
  {
  }

  /** The element at position `j` once position `k` is dropped. */
  lemma DropAt(s: seq<string>, k: nat, j: nat)
    requires k < |s| && j < |s| - 1
    ensures (s[..k] + s[k + 1..])[j] == s[if j < k then j else j + 1]
  {
  }

  /** Removing an element that is present takes exactly one copy of it away. */
  lemma RemoveFirstMultiset(s: seq<string>, x: string)
    requires x in s
    ensures multiset(RemoveFirst(s, x)) == multiset(s) - multiset{x}
  {
    var k := IndexOf(s, x);
    assert s == s[..k] + [x] + s[k + 1..];
    assert multiset(s) == multiset(s[..k]) + multiset{x} + multiset(s[k + 1..]);
  }

  /** `toggle_like_song(p)` on the liked list: remove `p` if it is there, append it otherwise. */
  function ToggleLike(liked: seq<string>, p: string): seq<string> {
    if p in liked then RemoveFirst(liked, p) else liked + [p]
  }

  /**
   * Toggling twice gives back the liked list itself when `p` was not liked,
   * and the same songs when `p` was liked once (it then moves to the end).
   */
  lemma ToggleLikeTwice(liked: seq<string>, p: string)
    ensures p !in liked ==> ToggleLike(ToggleLike(liked, p), p) == liked
    ensures multiset(liked)[p] <= 1 ==> multiset(ToggleLike(ToggleLike(liked, p), p)) == multiset(liked)
  {
    if p !in liked {
      var t := liked + [p];
      assert forall j :: 0 <= j < |liked| ==> t[j] == liked[j] != p;
      assert t[..IndexOf(t, p)] == liked;
    } else if multiset(liked)[p] <= 1 {
      var once := RemoveFirst(liked, p);
      RemoveFirstMultiset(liked, p);
      assert p !in once by {
        assert multiset(once)[p] == 0;
      }
      assert multiset(once + [p]) == multiset(once) + multiset{p};
    }
  }

  /**
   * On a liked list without duplicates (the only kind toggling builds from
   * an empty one) the toggle keeps it duplicate-free, and `p` is liked
   * afterwards exactly when it was not before.
   */
  lemma ToggleLikeFlipsMembership(liked: seq<string>, p: string)
    requires NoDuplicates(liked)
    ensures NoDuplicates(ToggleLike(liked, p))
    ensures p in ToggleLike(liked, p) <==> p !in liked
  {
    if p in liked {
      var k := IndexOf(liked, p);
      var r := RemoveFirst(liked, p);
      assert r == liked[..k] + liked[k + 1..];
      forall a, b | 0 <= a < b < |r| ensures r[a] != r[b] {
        DropAt(liked, k, a);
        DropAt(liked, k, b);
      }
      forall j | 0 <= j < |r| ensures r[j] != p {
        DropAt(liked, k, j);
      }
    } else {
      var r := liked + [p];
      forall a, b | 0 <= a < b < |r| ensures r[a] != r[b] {
        if b == |liked| { assert r[a] == liked[a]; }
      }
    }
  }

  // ===== file names =====

  /** The characters `_sanitize_filename` deletes. */
  const Forbidden: set<char> := {'<', '>', ':', '"', '/', '\\', '|', '?', '*'}

  /** `re.sub(r'[<>:"/\\|?*]', '', s)`. */
  function RemoveForbidden(s: string): (r: string)
    ensures |r| <= |s|
    ensures forall k :: 0 <= k < |r| ==> r[k] !in Forbidden
    ensures (forall k :: 0 <= k < |s| ==> s[k] !in Forbidden) ==> r == s
  {
    if s == [] then []
    else (if s[0] in Forbidden then [] else [s[0]]) + RemoveForbidden(s[1..])
  }

  /** Every forbidden character is deleted, and every other character is kept as often as it occurs. */
  lemma {:induction false} RemoveForbiddenCounts(s: string)
    ensures forall c :: multiset(RemoveForbidden(s))[c] == if c in Forbidden then 0 else multiset(s)[c]
  {
    if s != [] {
      RemoveForbiddenCounts(s[1..]);
      assert s == [s[0]] + s[1..];
    }
  }

  /**
   * The deletion works character by character: on a concatenation it deletes
   * from each part, so with the one-character cases above it fixes the
   * result's order as well as its contents.
   */
  lemma {:induction false} RemoveForbiddenOfConcat(a: string, b: string)
    ensures RemoveForbidden(a + b) == RemoveForbidden(a) + RemoveForbidden(b)
  {
    if a == [] {
      assert a + b == b;
    } else {
      var head := if a[0] in Forbidden then [] else [a[0]];
      assert (a + b)[0] == a[0] && (a + b)[1..] == a[1..] + b;
      assert RemoveForbidden(a + b) == head + RemoveForbidden(a[1..] + b);
      RemoveForbiddenOfConcat(a[1..], b);
      assert head + (RemoveForbidden(a[1..]) + RemoveForbidden(b)) == head + RemoveForbidden(a[1..]) + RemoveForbidden(b);
    }
  }

  /** The forbidden characters deleted and the surrounding whitespace stripped. */
  function Cleaned(filename: string): (r: string)
    ensures forall k :: 0 <= k < |r| ==> r[k] !in Forbidden
    ensures r != [] ==> !IsSpace(r[0])
  {
    var removed := RemoveForbidden(filename);
    StripKeepsCharacters(removed);
    Strip(removed)
  }

  /**
   * `_sanitize_filename`: the forbidden characters deleted, surrounding
   * whitespace stripped, and the first 200 characters kept. The result is
   * a prefix of the cleaned text, the whole of it when it is short
   * enough, and contains no forbidden character.
   */
  function SanitizeFilename(filename: string): (r: string)
    ensures |r| <= 200
    ensures forall k :: 0 <= k < |r| ==> r[k] !in Forbidden
    ensures r <= Cleaned(filename)
    ensures |r| == if |Cleaned(filename)| <= 200 then |Cleaned(filename)| else 200
    ensures r != [] ==> !IsSpace(r[0])
  {
    var cleaned := Cleaned(filename);
    if |cleaned| <= 200 then cleaned else cleaned[..200]
  }

  /** A name that is already clean (no forbidden character, no surrounding space, at most 200 characters) is kept as it is. */
  lemma SanitizeKeepsCleanNames(name: string)
    requires forall k :: 0 <= k < |name| ==> name[k] !in Forbidden
    requires Trimmed(name)
    requires |name| <= 200
    ensures SanitizeFilename(name) == name
  {
    assert RemoveForbidden(name) == name;
    assert Cleaned(name) == name by {
      StripOfTrimmed(name);
    }
  }

  /** The file `download_from_youtube` writes: the sanitized title with `.mp3` appended, inside the download folder. */
  function DownloadTarget(folder: string, title: string): string {
    Join(folder, SanitizeFilename(title) + ".mp3")
  }

  /** A downloaded file is named after its sanitized title and carries the extension `add_folder` picks up. */
  lemma DownloadTargetIsMp3(folder: string, title: string)
    ensures BaseName(DownloadTarget(folder, title)) == SanitizeFilename(title) + ".mp3"
    ensures HasMp3Extension(BaseName(DownloadTarget(folder, title)))
  {
    var safe := SanitizeFilename(title);
    assert '/' !in safe by {
      assert '/' in Forbidden;
    }
    Mp3NameOfJoin(folder, safe);
  }

  lemma Mp3NameOfJoin(folder: string, stem: string)
    requires '/' !in stem
    ensures BaseName(Join(folder, stem + ".mp3")) == stem + ".mp3"
    ensures HasMp3Extension(stem + ".mp3")
  {
    var name := stem + ".mp3";
    assert '/' !in name by {
      forall k | 0 <= k < |name| ensures name[k] != '/' {
        if k < |stem| {
          assert name[k] == stem[k];
        }
      }
    }
    BaseNameOfJoin(folder, name);
    var lower := Lower(name);
    forall k | 0 <= k < 4 ensures lower[|name| - 4 + k] == ".mp3"[k] {
      assert name[|name| - 4 + k] == ".mp3"[k];
    }
    assert lower[|name| - 4..] == ".mp3";
  }

  // ===== the state manager =====

  class MusicPlayerBackend {
    var playlist: seq<string>
    var currentIndex: int
    var isPlaying: bool
    var isPaused: bool
    var songLength: real
    var pausePosition: real
    var shuffleMode: bool
    var likedSongs: seq<string>
    /** The listener notifications sent so far, oldest first. */
    var notices: seq<Notice>
    /** The commands sent to the audio mixer so far, oldest first. */
    var mixer: seq<MixerCall>
    /** Whether the audio mixer holds a track (pygame's state, not a field of the source's object). */
    var musicLoaded: bool

    /** The playback and playlist fields, and the mixer's loaded flag, as one value. */
    function State(): Snapshot
      reads this
    {
      Snapshot(playlist, currentIndex, isPlaying, isPaused, songLength, pausePosition, shuffleMode, musicLoaded)
    }

    ghost predicate Valid()
      reads this
    {
      Consistent(State())
    }

    /** `__init__`, given the list the liked-songs file held (empty when it is absent or unreadable). */
    constructor (liked: seq<string>)
      ensures Valid() && State() == Initial
      ensures likedSongs == liked && notices == [] && mixer == []
    {
      playlist, currentIndex := [], 0;
      isPlaying, isPaused := false, false;
      songLength, pausePosition := 0.0, 0.0;
      shuffleMode := false;
      likedSongs := liked;
      notices, mixer := [], [];
      musicLoaded := false;
    }

    /** `load_song(index, autoplay)`. */
    method LoadSong(index: int, autoplay: bool, disk: Disk) returns (ok: bool, message: string)
      requires Valid()
      modifies this
      ensures Valid()
      ensures State() == AfterLoad(old(State()), index, autoplay, disk)
      ensures likedSongs == old(likedSongs)
      ensures mixer == old(mixer) + LoadCalls(old(State()), index, autoplay, disk)
      ensures notices == old(notices) + LoadNotices(old(State()), index, autoplay, disk)
      ensures ok == CanLoad(old(State()), index, disk)
      ensures message == LoadMessage(old(State()), index, disk)
    {
      if !(0 <= index < |playlist|) {
        return false, "Index invalide";
      }
      ghost var before := State();
      var path := playlist[index];
      if path in disk.loadErrors {
        notices := notices + [Failure("Impossible de charger la chanson: " + disk.loadErrors[path])];
        return false, disk.loadErrors[path];
      }
      assert CanLoad(before, index, disk);
      var filename := BaseName(path);
      var length := disk.Duration(path);
      AppendedTwice(mixer, [LoadFile(path)], if autoplay then [PlayFrom(0.0)] else []);
      mixer := mixer + [LoadFile(path)] + (if autoplay then [PlayFrom(0.0)] else []);
      musicLoaded := true;
      songLength, pausePosition, isPlaying, isPaused := length, 0.0, autoplay, false;
      notices := notices + [SongChanged(Some(filename), length, index), PlaybackStateChanged(autoplay, false)];
      assert State() == AfterLoad(before, index, autoplay, disk);
      return true, filename;
    }

    /** The step the three additions share: extend the playlist, notify, and load track 0 if it was empty. */
    method Extend(added: seq<string>, disk: Disk)
      requires Valid() && added != []
      modifies this
      ensures Valid()
      ensures State() == AfterAdd(old(State()), added, disk)
      ensures likedSongs == old(likedSongs)
      ensures mixer == old(mixer) + AddCalls(old(State()), added, disk)
      ensures notices == old(notices) + AddNotices(old(State()), added, disk)
    {
      ghost var before, notices0 := State(), notices;
      AddSteps(before, added, disk);
      playlist := playlist + added;
      notices := notices + [PlaylistUpdated(playlist)];
      if |playlist| == |added| {
        currentIndex := 0;
        var ok, message := LoadSong(currentIndex, false, disk);
        AppendedTwice(notices0, [PlaylistUpdated(playlist)], LoadNotices(before.(playlist := playlist, currentIndex := 0), 0, false, disk));
      }
    }

    /** `add_folder(folder_path)`: listing a path that exists but is no directory raises. */
    method AddFolder(folderPath: string, disk: Disk) returns (r: Call<(bool, string)>)
      requires Valid()
      modifies this
      ensures Valid()
      ensures likedSongs == old(likedSongs)
      ensures folderPath == [] || !disk.Exists(folderPath) ==> r == Returned((false, "Dossier invalide")) && unchanged(this)
      ensures folderPath != [] && disk.Exists(folderPath) && folderPath !in disk.listings ==>
        r == Raised(disk.ListDirError(folderPath)) && unchanged(this)
      ensures folderPath != [] && folderPath in disk.listings ==>
        var added := FolderAdditions(folderPath, disk.listings[folderPath], old(playlist));
        && (added == [] ==> r == Returned((false, "Aucun fichier MP3 nouveau trouvé")) && unchanged(this))
        && (added != [] ==>
              && r == Returned((true, IntToString(|added|) + " fichiers ajoutés"))
              && State() == AfterAdd(old(State()), added, disk)
              && mixer == old(mixer) + AddCalls(old(State()), added, disk)
              && notices == old(notices) + AddNotices(old(State()), added, disk))
    {
      if folderPath == [] || !disk.Exists(folderPath) {
        return Returned((false, "Dossier invalide"));
      }
      if folderPath !in disk.listings {
        return Raised(disk.ListDirError(folderPath));
      }
      var names := StringOrder.Sort(disk.listings[folderPath]);
      var mp3Files := CollectMp3Files(folderPath, names, playlist);
      if mp3Files != [] {
        Extend(mp3Files, disk);
        return Returned((true, IntToString(|mp3Files|) + " fichiers ajoutés"));
      }
      return Returned((false, "Aucun fichier MP3 nouveau trouvé"));
    }

    /** `add_files(file_paths)`. */
    method AddFiles(filePaths: seq<string>, disk: Disk) returns (ok: bool, message: string)
      requires Valid()
      modifies this
      ensures Valid()
      ensures likedSongs == old(likedSongs)
      ensures filePaths == [] ==> !ok && message == "Aucun fichier sélectionné" && unchanged(this)
      ensures filePaths != [] ==>
        var added := NewEntries(filePaths, old(playlist));
        && (added == [] ==> !ok && message == "Tous les fichiers sont déjà dans la playlist" && unchanged(this))
        && (added != [] ==>
              && ok && message == IntToString(|added|) + " fichiers ajoutés"
              && State() == AfterAdd(old(State()), added, disk)
              && mixer == old(mixer) + AddCalls(old(State()), added, disk)
              && notices == old(notices) + AddNotices(old(State()), added, disk))
    {
      if filePaths == [] {
        return false, "Aucun fichier sélectionné";
      }
      var newFiles := NewEntries(filePaths, playlist);
      if newFiles != [] {
        Extend(newFiles, disk);
        return true, IntToString(|newFiles|) + " fichiers ajoutés";
      }
      return false, "Tous les fichiers sont déjà dans la playlist";
    }

    /** `load_liked_songs()`: adds the liked paths that still exist on disk and are not yet listed. */
    method LoadLikedSongs(disk: Disk) returns (ok: bool, message: string)
      requires Valid()
      modifies this
      ensures Valid()
      ensures likedSongs == old(likedSongs)
      ensures likedSongs == [] ==> !ok && message == "Aucune musique likée trouvée" && unchanged(this)
      ensures likedSongs != [] && ExistingPaths(likedSongs, disk) == [] ==>
        !ok && message == "Aucun fichier MP3 liké n'existe plus sur le disque" && unchanged(this)
      ensures ExistingPaths(likedSongs, disk) != [] ==>
        var added := NewEntries(ExistingPaths(likedSongs, disk), old(playlist));
        && (added == [] ==> !ok && message == "Toutes les musiques likées sont déjà dans la playlist" && unchanged(this))
        && (added != [] ==>
              && ok && message == IntToString(|added|) + " musiques likées ajoutées"
              && State() == AfterAdd(old(State()), added, disk)
              && mixer == old(mixer) + AddCalls(old(State()), added, disk)
              && notices == old(notices) + AddNotices(old(State()), added, disk))
    {
      if likedSongs == [] {
        return false, "Aucune musique likée trouvée";
      }
      var existingFiles := ExistingPaths(likedSongs, disk);
      if existingFiles == [] {
        return false, "Aucun fichier MP3 liké n'existe plus sur le disque";
      }
      var newFiles := NewEntries(existingFiles, playlist);
      if newFiles != [] {
        Extend(newFiles, disk);
        return true, IntToString(|newFiles|) + " musiques likées ajoutées";
      }
      return false, "Toutes les musiques likées sont déjà dans la playlist";
    }

    /** `clear_playlist()`. */
    method ClearPlaylist()
      requires Valid()
      modifies this
      ensures Valid()
      ensures State() == AfterClear(old(State()))
      ensures likedSongs == old(likedSongs)
      ensures mixer == old(mixer) + [Stop]
      ensures notices == old(notices) + [PlaylistUpdated([]), SongChanged(None, 0.0, 0), PlaybackStateChanged(false, false)]
    {
      mixer := mixer + [Stop];
      playlist := [];
      currentIndex := 0;
      isPlaying, isPaused := false, false;
      songLength := 0.0;
      pausePosition := 0.0;
      notices := notices + [PlaylistUpdated(playlist), SongChanged(None, 0.0, 0), PlaybackStateChanged(false, false)];
    }

    /**
     * `play_pause()`, with the mixer's `get_pos()` reading `posMs`. The
     * `play()` of a stopped player raises when the mixer holds no track.
     */
    method PlayPause(posMs: int) returns (r: Call<bool>)
      requires Valid()
      modifies this
      ensures Valid()
      ensures State() == AfterPlayPause(old(State()), posMs)
      ensures likedSongs == old(likedSongs)
      ensures mixer == old(mixer) + PlayPauseCalls(old(State()))
      ensures old(playlist) == [] ==> r == Returned(false) && notices == old(notices) + [Failure("Chargez d'abord une playlist!")]
      ensures PlayNotLoaded(old(State())) ==> r == Raised("music not loaded") && notices == old(notices)
      ensures old(playlist) != [] && !PlayNotLoaded(old(State())) ==>
        r == Returned(true) && notices == old(notices) + [PlaybackStateChanged(isPlaying, isPaused)]
    {
      if playlist == [] {
        notices := notices + [Failure("Chargez d'abord une playlist!")];
        return Returned(false);
      }
      if !isPlaying && !musicLoaded {
        return Raised("music not loaded");
      }
      if isPlaying {
        if isPaused {
          mixer := mixer + [Unpause];
          isPaused := false;
        } else {
          pausePosition := GetCurrentPosition(posMs);
          mixer := mixer + [Pause];
          isPaused := true;
        }
      } else {
        mixer := mixer + [PlayFrom(0.0)];
        isPlaying, isPaused := true, false;
        pausePosition := 0.0;
      }
      notices := notices + [PlaybackStateChanged(isPlaying, isPaused)];
      return Returned(true);
    }

    /** `next_song()`, with the random draw of a shuffled choice given as `draw`. */
    method NextSong(draw: nat, disk: Disk)
      requires Valid()
      modifies this
      ensures Valid()
      ensures likedSongs == old(likedSongs)
      ensures old(playlist) == [] ==> unchanged(this)
      ensures old(playlist) != [] ==>
        var next := NextIndex(|old(playlist)|, old(currentIndex), old(shuffleMode), draw);
        var moved := old(State()).(currentIndex := next);
        && State() == AfterStep(old(State()), next, disk)
        && mixer == old(mixer) + LoadCalls(moved, next, old(isPlaying), disk)
        && notices == old(notices) + LoadNotices(moved, next, old(isPlaying), disk)
    {
      if playlist != [] {
        var next := GetNextSongIndex(draw);
        currentIndex := next.value;
        var ok, message := LoadSong(currentIndex, isPlaying, disk);
      }
    }

    /** `previous_song()`: always the previous track round the list, whatever the shuffle flag. */
    method PreviousSong(disk: Disk)
      requires Valid()
      modifies this
      ensures Valid()
      ensures likedSongs == old(likedSongs)
      ensures old(playlist) == [] ==> unchanged(this)
      ensures old(playlist) != [] ==>
        var previous := Predecessor(|old(playlist)|, old(currentIndex));
        var moved := old(State()).(currentIndex := previous);
        && State() == AfterStep(old(State()), previous, disk)
        && mixer == old(mixer) + LoadCalls(moved, previous, old(isPlaying), disk)
        && notices == old(notices) + LoadNotices(moved, previous, old(isPlaying), disk)
    {
      if playlist != [] {
        currentIndex := (currentIndex - 1) % |playlist|;
        var ok, message := LoadSong(currentIndex, isPlaying, disk);
      }
    }

    /** `play_at_index(index)`: select and play a track; an index out of range does nothing. */
    method PlayAtIndex(index: int, disk: Disk)
      requires Valid()
      modifies this
      ensures Valid()
      ensures likedSongs == old(likedSongs)
      ensures !(0 <= index < |old(playlist)|) ==> unchanged(this)
      ensures 0 <= index < |old(playlist)| ==>
        var moved := old(State()).(currentIndex := index);
        && State() == AfterLoad(moved, index, true, disk)
        && mixer == old(mixer) + LoadCalls(moved, index, true, disk)
        && notices == old(notices) + LoadNotices(moved, index, true, disk)
    {
      if 0 <= index < |playlist| {
        currentIndex := index;
        var ok, message := LoadSong(currentIndex, true, disk);
      }
    }

    /**
     * `seek(position_seconds)`: only with a known song length and a position
     * inside it. Reloading the current file raises when the mixer cannot open it.
     */
    method Seek(p: real, disk: Disk) returns (r: Call<bool>)
      requires Valid()
      modifies this
      ensures Valid()
      ensures likedSongs == old(likedSongs) && notices == old(notices)
      ensures !(old(songLength) > 0.0 && 0.0 <= p <= old(songLength)) ==> r == Returned(false) && unchanged(this)
      ensures old(songLength) > 0.0 && 0.0 <= p <= old(songLength) ==>
        var path := old(playlist)[old(currentIndex)];
        if path in disk.loadErrors then
          r == Raised(disk.loadErrors[path]) && State() == old(State()) && mixer == old(mixer) + [Stop]
        else
          && r == Returned(true)
          && State() == AfterSeek(old(State()), p)
          && mixer == old(mixer) + SeekCalls(old(State()), p)
          && (!ActivelyPlaying(old(State())) ==> forall ms :: GetCurrentPosition(ms) == p)
    {
      if songLength > 0.0 && 0.0 <= p <= songLength {
        var wasPlaying := isPlaying && !isPaused;
        mixer := mixer + [Stop];
        var path := playlist[currentIndex];
        if path in disk.loadErrors {
          return Raised(disk.loadErrors[path]);
        }
        mixer := mixer + [LoadFile(path), PlayFrom(p)];
        isPlaying, musicLoaded := true, true;
        pausePosition := p;
        if !wasPlaying {
          mixer := mixer + [Pause];
          isPaused := true;
        } else {
          isPaused := false;
        }
        return Returned(true);
      }
      return Returned(false);
    }

    /** `toggle_shuffle()`: flips the flag and returns its new value. */
    method ToggleShuffle() returns (on: bool)
      requires Valid()
      modifies this
      ensures Valid()
      ensures on == shuffleMode == !old(shuffleMode)
      ensures State() == AfterToggleShuffle(old(State()))
      ensures likedSongs == old(likedSongs) && notices == old(notices) && mixer == old(mixer)
    {
      shuffleMode := !shuffleMode;
      return shuffleMode;
    }

    /**
     * `get_next_song_index()`, with the random draw given as `draw`. With
     * shuffle off and an empty playlist the modulo by zero raises.
     */
    function GetNextSongIndex(draw: nat): (r: Call<nat>)
      reads this
      ensures shuffleMode && |playlist| <= 1 ==> r == Returned(0)
      ensures !shuffleMode && playlist == [] ==> r.Raised?
      ensures playlist != [] ==> r == Returned(NextIndex(|playlist|, currentIndex, shuffleMode, draw))
    {
      if shuffleMode then
        if |playlist| > 1 then Returned(ShufflePick(|playlist|, currentIndex, draw)) else Returned(0)
      else if playlist == [] then Raised("integer division or modulo by zero")
      else Returned(Successor(|playlist|, currentIndex))
    }

    /** `get_current_position()` when the mixer's `get_pos()` reads `posMs`. */
    function GetCurrentPosition(posMs: int): real
      reads this
    {
      Position(State(), posMs)
    }

    /** `is_song_finished()` when the mixer's `get_busy()` reads `busy`. */
    predicate IsSongFinished(busy: bool)
      reads this
    {
      IsFinished(State(), busy)
    }

    /** `toggle_like_song(song_path)`: returns whether the song is now liked. */
    method ToggleLikeSong(songPath: string) returns (liked: bool)
      modifies this
      ensures liked == (songPath !in old(likedSongs))
      ensures likedSongs == ToggleLike(old(likedSongs), songPath)
      ensures IsSongLiked(songPath) == (liked || multiset(old(likedSongs))[songPath] > 1)
      ensures State() == old(State()) && notices == old(notices) && mixer == old(mixer)
    {
      if songPath in likedSongs {
        RemoveFirstMultiset(likedSongs, songPath);
        likedSongs := RemoveFirst(likedSongs, songPath);
        return false;
      } else {
        likedSongs := likedSongs + [songPath];
        return true;
      }
    }

    /** `is_song_liked(song_path)`. */
    predicate IsSongLiked(songPath: string)
      reads this
    {
      songPath in likedSongs
    }

    /** The end of a successful download: append the produced file unless listed, and load it if it is the only track. */
    method AppendDownloaded(outputFile: string, disk: Disk)
      requires Valid()
      modifies this
      ensures Valid()
      ensures likedSongs == old(likedSongs)
      ensures outputFile in old(playlist) ==> unchanged(this)
      ensures outputFile !in old(playlist) ==>
        && State() == AfterAdd(old(State()), [outputFile], disk)
        && mixer == old(mixer) + AddCalls(old(State()), [outputFile], disk)
        && notices == old(notices) + AddNotices(old(State()), [outputFile], disk)
    {
      if outputFile !in playlist {
        Extend([outputFile], disk);
      }
    }
  }

  /** `[f for f in liked if os.path.exists(f)]`. */
  function ExistingPaths(liked: seq<string>, disk: Disk): (r: seq<string>)
    ensures forall x :: x in r <==> x in liked && disk.Exists(x)
    ensures |r| <= |liked|
    ensures |liked| == 1 ==> r == if disk.Exists(liked[0]) then liked else []
  {
    if liked == [] then []
    else (if disk.Exists(liked[0]) then [liked[0]] else []) + ExistingPaths(liked[1..], disk)
  }

  /**
   * The filter distributes over concatenation; with the one-path case above
   * this fixes the result as the existing paths in their liked order, repeats kept.
   */
  lemma {:induction false} ExistingPathsOfConcat(a: seq<string>, b: seq<string>, disk: Disk)
    ensures ExistingPaths(a + b, disk) == ExistingPaths(a, disk) + ExistingPaths(b, disk)
  {
    if a == [] {
      assert a + b == b;
    } else {
      var head := if disk.Exists(a[0]) then [a[0]] else [];
      assert (a + b)[0] == a[0] && (a + b)[1..] == a[1..] + b;
      assert ExistingPaths(a + b, disk) == head + ExistingPaths(a[1..] + b, disk);
      ExistingPathsOfConcat(a[1..], b, disk);
      assert head + (ExistingPaths(a[1..], disk) + ExistingPaths(b, disk)) == head + ExistingPaths(a[1..], disk) + ExistingPaths(b, disk);
    }
  }
}
