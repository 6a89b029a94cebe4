/**
 * `MusicPlayer`: the earlier single-window player, whose Tk callbacks hold
 * the playback state themselves. Widgets are not modelled; the dialog boxes
 * it shows are kept as a log of their messages.
 */
module Lecteur {
  import opened Wrappers
  import opened Media
  import opened PlayerState
  import StringOrder

  /** The message box `load_song` shows when the mixer cannot open the track. */
  function LoadAlerts(s: Snapshot, index: int, disk: Disk): seq<string> {
    if 0 <= index < |s.playlist| && s.playlist[index] in disk.loadErrors then
      ["Impossible de charger la chanson: " + disk.loadErrors[s.playlist[index]]]
    else []
  }

  /** The alerts of an addition: those of loading track 0 when the playlist was empty. */
  function AddAlerts(s: Snapshot, added: seq<string>, disk: Disk): seq<string> {
    if added != [] && s.playlist == [] then LoadAlerts(s.(playlist := s.playlist + added, currentIndex := 0), 0, disk) else []
  }

  /** `clear_playlist()`: unlike the backend's, it leaves the pause offset as it was. */
  function AfterClear(s: Snapshot): Snapshot {
    s.(playlist := [], currentIndex := 0, isPlaying := false, isPaused := false, songLength := 0.0)
  }

  lemma AfterClearIsInitial(s: Snapshot)
    ensures AfterClear(s) == Initial.(shuffleMode := s.shuffleMode, pausePosition := s.pausePosition, musicLoaded := s.musicLoaded)
    ensures Consistent(AfterClear(s)) && Stopped(AfterClear(s))
  {
  }

  /**
   * The position `on_slider_release` seeks to for a release at pixel `x` on a
   * slider `width` pixels wide: `x` clamped to the slider, as a fraction of
   * the width, times the song length. A zero width divides by zero.
   */
  function SliderPosition(x: int, width: int, length: real): (r: Option<real>)
    ensures r.None? <==> width == 0
    ensures width > 0 && length >= 0.0 ==> r.Some? && 0.0 <= r.value <= length
    ensures width > 0 && 0 <= x <= width ==> r == Some(x as real / width as real * length)
    ensures width > 0 && x <= 0 ==> r == Some(0.0)
    ensures width > 0 && x >= width ==> r == Some(length)
  {
    var m := if x < width then x else width;
    var c := if m < 0 then 0 else m;
    if width == 0 then None
    else
      var fraction := c as real / width as real;
      var position := (fraction * 100.0) / 100.0 * length;
      if width < 0 then Some(position)
      else
        SliderArithmetic(c, width, length);
        assert position == c as real / width as real * length;
        assert 0 <= x <= width ==> position == x as real / width as real * length by {
          if 0 <= x <= width {
            assert c == x;
          }
        }
        assert x <= 0 ==> c == 0;
        assert x >= width ==> c == width;
        Some(position)
  }

  /** The arithmetic of a release at the clamped pixel `c`, through the percentage the handler computes. */
  lemma SliderArithmetic(c: int, width: int, length: real)
    requires 0 <= c <= width && width > 0
    ensures var position := (c as real / width as real * 100.0) / 100.0 * length;
      && position == c as real / width as real * length
      && (c == 0 ==> position == 0.0)
      && (c == width ==> position == length)
      && (length >= 0.0 ==> 0.0 <= position <= length)
  {
    var fraction := c as real / width as real;
    assert (fraction * 100.0) / 100.0 == fraction;
    assert c == width ==> fraction == 1.0;
    if length >= 0.0 {
      UnitFraction(c, width);
      FractionOfLength(fraction, length);
    }
  }

  /** A proof step for `SliderArithmetic`: the clamped pixel over the width is a fraction. */
  lemma UnitFraction(c: int, width: int)
    requires 0 <= c <= width && width > 0
    ensures 0.0 <= c as real / width as real <= 1.0
  {
    assert c as real / width as real * width as real == c as real;
  }

  /** A proof step for `SliderArithmetic`: a fraction of a length stays within it. */
  lemma FractionOfLength(f: real, length: real)
    requires 0.0 <= f <= 1.0 && length >= 0.0
    ensures 0.0 <= f * length <= length
  {
    assert length - f * length == (1.0 - f) * length;
  }

  class MusicPlayer {
    var playlist: seq<string>
    var currentIndex: int
    var isPlaying: bool
    var isPaused: bool
    var songLength: real
    var pausePosition: real
    var shuffleMode: bool
    /** Set while the progress slider is held down. */
    var seeking: bool
    /** The progress slider's width in pixels. */
    var canvasWidth: int
    /** The messages of the dialog boxes shown so far, oldest first. */
    var alerts: seq<string>
    /** The commands sent to the audio mixer so far, oldest first. */
    var mixer: seq<MixerCall>
    /** Whether the audio mixer holds a track (pygame's state, not a field of the source's object). */
    var musicLoaded: bool

    /** The playback and playlist fields, and the mixer's loaded flag, as one value. */
    function State(): Snapshot
      reads this
    {
      Snapshot(playlist, currentIndex, isPlaying, isPaused, songLength, pausePosition, shuffleMode, musicLoaded)
    }

    ghost predicate Valid()
      reads this
    {
      Consistent(State())
    }

    /** `__init__`, without the window it builds. */
    constructor ()
      ensures Valid() && State() == Initial
      ensures !seeking && canvasWidth == 580 && alerts == [] && mixer == []
    {
      playlist, currentIndex := [], 0;
      isPlaying, isPaused := false, false;
      songLength, pausePosition := 0.0, 0.0;
      shuffleMode, seeking := false, false;
      canvasWidth := 580;
      alerts, mixer := [], [];
      musicLoaded := false;
    }

    /** `load_song(index, autoplay)`. */
    method LoadSong(index: int, autoplay: bool, disk: Disk)
      requires Valid()
      modifies this
      ensures Valid()
      ensures State() == AfterLoad(old(State()), index, autoplay, disk)
      ensures mixer == old(mixer) + LoadCalls(old(State()), index, autoplay, disk)
      ensures alerts == old(alerts) + LoadAlerts(old(State()), index, disk)
      ensures seeking == old(seeking) && canvasWidth == old(canvasWidth)
    {
      if 0 <= index < |playlist| {
        ghost var before := State();
        var path := playlist[index];
        if path in disk.loadErrors {
          alerts := alerts + ["Impossible de charger la chanson: " + disk.loadErrors[path]];
          return;
        }
        assert CanLoad(before, index, disk);
        var length := disk.Duration(path);
        mixer := mixer + [LoadFile(path)] + (if autoplay then [PlayFrom(0.0)] else []);
        musicLoaded := true;
        songLength, pausePosition, isPlaying, isPaused := length, 0.0, autoplay, false;
        assert State() == AfterLoad(before, index, autoplay, disk);
      }
    }

    /** The step `add_folder` and `add_files` share: extend the playlist and load track 0 if it was empty. */
    method Extend(added: seq<string>, disk: Disk)
      requires Valid() && added != []
      modifies this
      ensures Valid()
      ensures State() == AfterAdd(old(State()), added, disk)
      ensures mixer == old(mixer) + AddCalls(old(State()), added, disk)
      ensures alerts == old(alerts) + AddAlerts(old(State()), added, disk)
      ensures seeking == old(seeking) && canvasWidth == old(canvasWidth)
    {
      ghost var before := State();
      playlist := playlist + added;
      if |playlist| == |added| {
        assert before.playlist == [];
        currentIndex := 0;
        assert State() == before.(playlist := before.playlist + added, currentIndex := 0);
        LoadSong(currentIndex, false, disk);
      } else {
        assert before.playlist != [];
      }
    }

    /**
     * `add_folder()` once the directory dialog returned `folder` (empty when
     * it was cancelled). Listing a path that is no directory raises.
     */
    method AddFolder(folder: string, disk: Disk) returns (r: Call<()>)
      requires Valid()
      modifies this
      ensures Valid()
      ensures seeking == old(seeking) && canvasWidth == old(canvasWidth)
      ensures folder == [] ==> r == Returned(()) && unchanged(this)
      ensures folder != [] && folder !in disk.listings ==> r == Raised(disk.ListDirError(folder)) && unchanged(this)
      ensures folder != [] && folder in disk.listings ==>
        var added := FolderAdditions(folder, disk.listings[folder], old(playlist));
        && r == Returned(())
        && (added == [] ==>
              && State() == old(State()) && mixer == old(mixer)
              && alerts == old(alerts) + ["Aucun fichier MP3 nouveau trouvé dans ce dossier!"])
        && (added != [] ==>
              && State() == AfterAdd(old(State()), added, disk)
              && mixer == old(mixer) + AddCalls(old(State()), added, disk)
              && alerts == old(alerts) + AddAlerts(old(State()), added, disk))
    {
      if folder == [] {
        return Returned(());
      }
      if folder !in disk.listings {
        return Raised(disk.ListDirError(folder));
      }
      var names := StringOrder.Sort(disk.listings[folder]);
      var mp3Files := CollectMp3Files(folder, names, playlist);
      if mp3Files != [] {
        Extend(mp3Files, disk);
      } else {
        alerts := alerts + ["Aucun fichier MP3 nouveau trouvé dans ce dossier!"];
      }
      return Returned(());
    }

    /** `add_files()` once the file dialog returned `files` (empty when it was cancelled). */
    method AddFiles(files: seq<string>, disk: Disk)
      requires Valid()
      modifies this
      ensures Valid()
      ensures seeking == old(seeking) && canvasWidth == old(canvasWidth)
      ensures files == [] ==> unchanged(this)
      ensures files != [] ==>
        var added := NewEntries(files, old(playlist));
        && (added == [] ==>
              && State() == old(State()) && mixer == old(mixer)
              && alerts == old(alerts) + ["Tous les fichiers sont déjà dans la playlist!"])
        && (added != [] ==>
              && State() == AfterAdd(old(State()), added, disk)
              && mixer == old(mixer) + AddCalls(old(State()), added, disk)
              && alerts == old(alerts) + AddAlerts(old(State()), added, disk))
    {
      if files != [] {
        var newFiles := NewEntries(files, playlist);
        if newFiles != [] {
          Extend(newFiles, disk);
        } else {
          alerts := alerts + ["Tous les fichiers sont déjà dans la playlist!"];
        }
      }
    }

    /** `clear_playlist()`. */
    method ClearPlaylist()
      requires Valid()
      modifies this
      ensures Valid()
      ensures State() == AfterClear(old(State()))
      ensures mixer == old(mixer) + [Stop]
      ensures alerts == old(alerts) && seeking == old(seeking) && canvasWidth == old(canvasWidth)
    {
      mixer := mixer + [Stop];
      playlist := [];
      currentIndex := 0;
      isPlaying, isPaused := false, false;
      songLength := 0.0;
    }

    /**
     * `play_pause()`, with the mixer's `get_pos()` reading `posMs`. The
     * `play()` of a stopped player raises out of the callback when the
     * mixer holds no track.
     */
    method PlayPause(posMs: int) returns (r: Call<()>)
      requires Valid()
      modifies this
      ensures Valid()
      ensures State() == AfterPlayPause(old(State()), posMs)
      ensures mixer == old(mixer) + PlayPauseCalls(old(State()))
      ensures alerts == old(alerts) + if old(playlist) == [] then ["Chargez d'abord une playlist!"] else []
      ensures r == if PlayNotLoaded(old(State())) then Raised("music not loaded") else Returned(())
      ensures seeking == old(seeking) && canvasWidth == old(canvasWidth)
    {
      if playlist == [] {
        alerts := alerts + ["Chargez d'abord une playlist!"];
        return Returned(());
      }
      if !isPlaying && !musicLoaded {
        return Raised("music not loaded");
      }
      if isPlaying {
        if isPaused {
          mixer := mixer + [Unpause];
          isPaused := false;
        } else {
          pausePosition := GetCurrentPosition(posMs);
          mixer := mixer + [Pause];
          isPaused := true;
        }
      } else {
        mixer := mixer + [PlayFrom(0.0)];
        isPlaying, isPaused := true, false;
        pausePosition := 0.0;
      }
      return Returned(());
    }

    /** `get_next_song_index()`, with the random draw given as `draw`; 0 for an empty playlist. */
    function GetNextSongIndex(draw: nat): (r: nat)
      reads this
      ensures playlist == [] ==> r == 0
      ensures playlist != [] ==> r == NextIndex(|playlist|, currentIndex, shuffleMode, draw)
    {
      if playlist == [] then 0
      else if shuffleMode then
        if |playlist| > 1 then ShufflePick(|playlist|, currentIndex, draw) else 0
      else Successor(|playlist|, currentIndex)
    }

    /** `next_song()`. */
    method NextSong(draw: nat, disk: Disk)
      requires Valid()
      modifies this
      ensures Valid()
      ensures seeking == old(seeking) && canvasWidth == old(canvasWidth)
      ensures old(playlist) == [] ==> unchanged(this)
      ensures old(playlist) != [] ==>
        var next := NextIndex(|old(playlist)|, old(currentIndex), old(shuffleMode), draw);
        var moved := old(State()).(currentIndex := next);
        && State() == AfterStep(old(State()), next, disk)
        && mixer == old(mixer) + LoadCalls(moved, next, old(isPlaying), disk)
        && alerts == old(alerts) + LoadAlerts(moved, next, disk)
    {
      if playlist != [] {
        currentIndex := GetNextSongIndex(draw);
        LoadSong(currentIndex, isPlaying, disk);
      }
    }

    /** `previous_song()`. */
    method PreviousSong(disk: Disk)
      requires Valid()
      modifies this
      ensures Valid()
      ensures seeking == old(seeking) && canvasWidth == old(canvasWidth)
      ensures old(playlist) == [] ==> unchanged(this)
      ensures old(playlist) != [] ==>
        var previous := Predecessor(|old(playlist)|, old(currentIndex));
        var moved := old(State()).(currentIndex := previous);
        && State() == AfterStep(old(State()), previous, disk)
        && mixer == old(mixer) + LoadCalls(moved, previous, old(isPlaying), disk)
        && alerts == old(alerts) + LoadAlerts(moved, previous, disk)
    {
      if playlist != [] {
        currentIndex := (currentIndex - 1) % |playlist|;
        LoadSong(currentIndex, isPlaying, disk);
      }
    }

    /**
     * `play_selected()` for the list box's current selection. The list box
     * shows exactly the playlist, so every selected row indexes a track.
     */
    method PlaySelected(selection: seq<int>, disk: Disk)
      requires Valid()
      requires forall k :: 0 <= k < |selection| ==> 0 <= selection[k] < |playlist|
      modifies this
      ensures Valid()
      ensures seeking == old(seeking) && canvasWidth == old(canvasWidth)
      ensures selection == [] ==> unchanged(this)
      ensures selection != [] ==>
        var moved := old(State()).(currentIndex := selection[0]);
        && State() == AfterLoad(moved, selection[0], true, disk)
        && mixer == old(mixer) + LoadCalls(moved, selection[0], true, disk)
        && alerts == old(alerts) + LoadAlerts(moved, selection[0], disk)
    {
      if selection != [] {
        currentIndex := selection[0];
        LoadSong(currentIndex, true, disk);
      }
    }

    /** `on_canvas_resize()`: the slider takes the new width. */
    method OnCanvasResize(width: int)
      modifies this
      ensures canvasWidth == width
      ensures State() == old(State()) && seeking == old(seeking) && alerts == old(alerts) && mixer == old(mixer)
    {
      canvasWidth := width;
    }

    /** `on_slider_click()`: the slider is held. */
    method OnSliderClick()
      modifies this
      ensures seeking
      ensures State() == old(State()) && canvasWidth == old(canvasWidth) && alerts == old(alerts) && mixer == old(mixer)
    {
      seeking := true;
    }

    /**
     * `on_slider_release()` at pixel `x`: with a known song length, seek to
     * the matching position of the current track. An exception (a zero
     * width, a file the mixer cannot reopen) escapes the callback and leaves
     * the slider held.
     */
    method OnSliderRelease(x: int, disk: Disk) returns (r: Call<()>)
      requires Valid()
      modifies this
      ensures Valid()
      ensures alerts == old(alerts) && canvasWidth == old(canvasWidth)
      ensures !(old(songLength) > 0.0) ==> r == Returned(()) && !seeking && State() == old(State()) && mixer == old(mixer)
      ensures old(songLength) > 0.0 && canvasWidth == 0 ==>
        r.Raised? && seeking == old(seeking) && State() == old(State()) && mixer == old(mixer)
      ensures old(songLength) > 0.0 && canvasWidth != 0 ==>
        var p := SliderPosition(x, canvasWidth, old(songLength)).value;
        var path := old(playlist)[old(currentIndex)];
        if path in disk.loadErrors then
          && r == Raised(disk.loadErrors[path]) && seeking == old(seeking)
          && State() == old(State()) && mixer == old(mixer) + [Stop]
        else
          && r == Returned(()) && !seeking
          && State() == AfterSeek(old(State()), p)
          && mixer == old(mixer) + SeekCalls(old(State()), p)
    {
      if songLength > 0.0 {
        var target := SliderPosition(x, canvasWidth, songLength);
        if target.None? {
          return Raised("division by zero");
        }
        var position := target.value;
        var wasPlaying := isPlaying && !isPaused;
        mixer := mixer + [Stop];
        var path := playlist[currentIndex];
        if path in disk.loadErrors {
          return Raised(disk.loadErrors[path]);
        }
        mixer := mixer + [LoadFile(path), PlayFrom(position)];
        isPlaying, musicLoaded := true, true;
        pausePosition := position;
        if !wasPlaying {
          mixer := mixer + [Pause];
          isPaused := true;
        } else {
          isPaused := false;
        }
      }
      seeking := false;
      return Returned(());
    }

    /** `get_current_position()` when the mixer's `get_pos()` reads `posMs`. */
    function GetCurrentPosition(posMs: int): real
      reads this
    {
      Position(State(), posMs)
    }

    /**
     * One tick of `update_slider()` with the mixer's `get_busy()` reading
     * `busy`: a track that ends while it plays and the slider is not held
     * advances to the next one.
     */
    method UpdateSlider(busy: bool, draw: nat, disk: Disk)
      requires Valid()
      modifies this
      ensures Valid()
      ensures seeking == old(seeking) && canvasWidth == old(canvasWidth)
      ensures !(IsFinished(old(State()), busy) && !old(seeking)) ==> unchanged(this)
      ensures IsFinished(old(State()), busy) && !old(seeking) ==>
        var next := NextIndex(|old(playlist)|, old(currentIndex), old(shuffleMode), draw);
        && State() == AfterStep(old(State()), next, disk)
        && mixer == old(mixer) + LoadCalls(old(State()).(currentIndex := next), next, true, disk)
        && alerts == old(alerts) + LoadAlerts(old(State()).(currentIndex := next), next, disk)
    {
      if isPlaying && !isPaused && !seeking {
        if !busy && isPlaying && !isPaused {
          NextSong(draw, disk);
        }
      }
    }

    /** `toggle_shuffle()`. */
    method ToggleShuffle()
      requires Valid()
      modifies this
      ensures Valid()
      ensures shuffleMode == !old(shuffleMode)
      ensures State() == AfterToggleShuffle(old(State()))
      ensures seeking == old(seeking) && canvasWidth == old(canvasWidth) && alerts == old(alerts) && mixer == old(mixer)
    {
      shuffleMode := !shuffleMode;
    }
  }

  /**
   * A track that finishes while playing is followed by the next one playing
   * from its start, unless the mixer cannot open it.
   */
  lemma AutoAdvanceKeepsPlaying(s: Snapshot, busy: bool, draw: nat, disk: Disk)
    requires Consistent(s) && IsFinished(s, busy)
    ensures s.playlist != []
    ensures var next := NextIndex(|s.playlist|, s.currentIndex, s.shuffleMode, draw);
      var t := AfterStep(s, next, disk);
      && t.currentIndex == next
      && (s.playlist[next] !in disk.loadErrors ==> ActivelyPlaying(t) && Position(t, 0) == 0.0)
  {
    var next := NextIndex(|s.playlist|, s.currentIndex, s.shuffleMode, draw);
    AfterStepEffect(s, next, disk);
  }
}
