/**
 * The playback and playlist state that both player classes keep (the
 * current backend `MusicPlayerBackend` and the earlier single-window
 * `MusicPlayer`), with the pure logic they share: index arithmetic, the
 * position computation, playlist de-duplication, and the effect of each
 * state change. The classes' methods are specified by these functions.
 */
module PlayerState {
  import opened Wrappers
  import opened Text
  import opened Media
  import StringOrder

  /**
   * The shared fields: the ordered track paths, the selected index, the
   * playback flags and times, and the shuffle flag. `musicLoaded` is the
   * mixer's own state: whether `pygame.mixer.music` holds a track, which
   * it does from the first successful `load` on (`stop()` keeps it, and a
   * failed `load` keeps what was there).
   */
  datatype Snapshot = Snapshot(
    playlist: seq<string>,
    currentIndex: int,
    isPlaying: bool,
    isPaused: bool,
    songLength: real,
    pausePosition: real,
    shuffleMode: bool,
    musicLoaded: bool)

  /** The values both constructors start from. */
  const Initial: Snapshot := Snapshot([], 0, false, false, 0.0, 0.0, false, false)

  /**
   * What every operation keeps: a paused player is a playing one, the index
   * selects a track of a non-empty playlist, with no playlist nothing is
   * playing and no song length is recorded, and the mixer holds a track
   * whenever the player is playing.
   */
  predicate Consistent(s: Snapshot) {
    && (s.isPaused ==> s.isPlaying)
    && (s.playlist != [] ==> 0 <= s.currentIndex < |s.playlist|)
    && (s.playlist == [] ==> s.currentIndex == 0 && !s.isPlaying && s.songLength == 0.0)
    && (s.isPlaying ==> s.musicLoaded)
  }

  /** The three playback states of the state machine. */
  predicate Stopped(s: Snapshot) { !s.isPlaying }
  predicate ActivelyPlaying(s: Snapshot) { s.isPlaying && !s.isPaused }
  predicate Paused(s: Snapshot) { s.isPlaying && s.isPaused }

  // ===== index arithmetic =====

  /** `(i + 1) % n`; Python's `%` and Dafny's agree for a positive modulus. */
  function Successor(n: nat, i: int): (r: nat)
    requires n > 0
    ensures r < n
    ensures 0 <= i < n - 1 ==> r == i + 1
    ensures i == n - 1 ==> r == 0
  {
    (i + 1) % n
  }

  /** `(i - 1) % n`, never negative: Python's `%` takes the divisor's sign. */
  function Predecessor(n: nat, i: int): (r: nat)
    requires n > 0
    ensures r < n
    ensures 0 < i <= n ==> r == i - 1
    ensures i == 0 ==> r == n - 1
  {
    (i - 1) % n
  }

  /** Going back one track undoes going forward one, and the other way round. */
  lemma PredecessorUndoesSuccessor(n: nat, i: int)
    requires 0 <= i < n
    ensures Predecessor(n, Successor(n, i)) == i
    ensures Successor(n, Predecessor(n, i)) == i
  {
  }

  /** The index after `k` non-shuffle `next` steps from `i`. */
  function Advance(n: nat, i: nat, k: nat): (r: nat)
    requires i < n
    ensures r < n
  {
    if k == 0 then i else Successor(n, Advance(n, i, k - 1))
  }

  /** With shuffle off, successive `next` calls visit i, i+1, ..., n-1, 0, 1, ... */
  lemma {:induction false} AdvanceVisitsInOrder(n: nat, i: nat, k: nat)
    requires i < n
    ensures Advance(n, i, k) == (i + k) % n
  {
    if k > 0 {
      AdvanceVisitsInOrder(n, i, k - 1);
      ModSuccessor(i + k - 1, n);
    }
  }

  lemma ModSuccessor(a: int, n: nat)
    requires n > 0
    ensures (a % n + 1) % n == (a + 1) % n
  {
    var q, r := a / n, a % n;
    if r + 1 < n {
      ModUnique(a + 1, n, q, r + 1);
    } else {
      assert a + 1 == (q + 1) * n;
      ModUnique(a + 1, n, q + 1, 0);
    }
  }

  /** The remainder is determined by any decomposition `a == q * n + r` with `0 <= r < n`. */
  lemma ModUnique(a: int, n: nat, q: int, r: int)
    requires n > 0 && a == q * n + r && 0 <= r < n
    ensures a % n == r
  {
    var q', r' := a / n, a % n;
    assert (q - q') * n == r' - r;
    var d := q - q';
    if d >= 1 {
      MulNonNegative(d - 1, n);
    } else if d <= -1 {
      MulNonNegative(-d - 1, n);
    }
  }

  lemma MulNonNegative(a: int, b: int)
    requires a >= 0 && b >= 0
    ensures a * b >= 0
  {
  }

  /** `[k for k in range(n) if k != i]`: the indices a shuffle draw may pick. */
  function OtherIndices(n: nat, i: int): (r: seq<nat>)
    ensures |r| == if 0 <= i < n then n - 1 else n
    ensures forall a :: 0 <= a < |r| ==> r[a] == if 0 <= i <= a then a + 1 else a
  {
    if n == 0 then [] else OtherIndices(n - 1, i) + (if n - 1 != i then [n - 1] else [])
  }

  lemma OtherIndicesMembers(n: nat, i: int)
    ensures forall k: int :: k in OtherIndices(n, i) <==> 0 <= k < n && k != i
  {
    var r := OtherIndices(n, i);
    forall a | 0 <= a < |r| ensures r[a] < n && r[a] != i {
    }
    forall k: nat | k < n && k != i ensures k in r {
      var a := if 0 <= i < k then k - 1 else k;
      assert r[a] == k;
    }
  }

  /** `random.choice(OtherIndices(n, i))` when the random draw is `draw`. */
  function ShufflePick(n: nat, i: int, draw: nat): (r: nat)
    requires n > 1
    ensures r < n && r != i
  {
    var others := OtherIndices(n, i);
    OtherIndicesMembers(n, i);
    others[draw % |others|]
  }

  /** No index other than the current one is out of the shuffle's reach. */
  lemma ShufflePickReaches(n: nat, i: int, k: nat)
    requires n > 1 && k < n && k != i
    ensures exists draw: nat :: ShufflePick(n, i, draw) == k
  {
    var draw := if 0 <= i < k then k - 1 else k;
    assert ShufflePick(n, i, draw) == k by {
      var others := OtherIndices(n, i);
      assert draw < |others|;
      ModUnique(draw, |others|, 0, draw);
      assert others[draw] == k;
    }
  }

  /**
   * The index `get_next_song_index` returns on a non-empty playlist: a shuffle
   * draw among the other tracks, the only track, or the next one round the list.
   */
  function NextIndex(n: nat, i: int, shuffle: bool, draw: nat): (r: nat)
    requires n > 0
    ensures r < n
    ensures shuffle && n > 1 ==> r != i
    ensures shuffle && n == 1 ==> r == 0
    ensures !shuffle ==> r == Successor(n, i)
  {
    if shuffle then (if n > 1 then ShufflePick(n, i, draw) else 0) else Successor(n, i)
  }

  // ===== position and status =====

  /**
   * `get_current_position()` when the mixer's `get_pos()` reads `posMs`
   * milliseconds since the last `play`: the offset alone while paused, the
   * offset plus the elapsed time while playing, and 0 when stopped or when
   * the mixer reports a negative count.
   */
  function Position(s: Snapshot, posMs: int): real {
    if s.isPlaying then
      if s.isPaused then s.pausePosition
      else if posMs >= 0 then s.pausePosition + posMs as real / 1000.0
      else 0.0
    else 0.0
  }

  /** `is_song_finished()` when the mixer's `get_busy()` reads `busy`. */
  predicate IsFinished(s: Snapshot, busy: bool) {
    !busy && s.isPlaying && !s.isPaused
  }

  /** While paused the position no longer depends on the mixer's clock; when stopped it is 0. */
  lemma PositionOfStoppedOrPaused(s: Snapshot, posMs: int, posMs': int)
    ensures Stopped(s) ==> Position(s, posMs) == 0.0
    ensures Paused(s) ==> Position(s, posMs) == Position(s, posMs') == s.pausePosition
  {
  }

  /** Only an actively playing player can be finished, and then exactly when the mixer is idle. */
  lemma FinishedOnlyWhilePlaying(s: Snapshot, busy: bool)
    ensures IsFinished(s, busy) <==> ActivelyPlaying(s) && !busy
  {
  }

  // ===== playlist additions =====

  predicate NoDuplicates(s: seq<string>) {
    forall a, b :: 0 <= a < b < |s| ==> s[a] != s[b]
  }

  /** `[f for f in candidates if f not in playlist]`, in the candidates' order. */
  function NewEntries(candidates: seq<string>, playlist: seq<string>): (r: seq<string>)
    ensures |r| <= |candidates|
    ensures forall x :: x in r <==> x in candidates && x !in playlist
  {
    if candidates == [] then []
    else (if candidates[0] in playlist then [] else [candidates[0]]) + NewEntries(candidates[1..], playlist)
  }

  lemma {:induction false} NewEntriesOfConcat(a: seq<string>, b: seq<string>, playlist: seq<string>)
    ensures NewEntries(a + b, playlist) == NewEntries(a, playlist) + NewEntries(b, playlist)
  {
    if a != [] {
      assert (a + b)[1..] == a[1..] + b;
      NewEntriesOfConcat(a[1..], b, playlist);
    } else {
      assert a + b == b;
    }
  }

  /** Offering the same candidates again once they were added adds nothing. */
  lemma AddingAgainAddsNothing(candidates: seq<string>, playlist: seq<string>)
    ensures NewEntries(candidates, playlist + NewEntries(candidates, playlist)) == []
  {
    NothingNewFromListed(candidates, playlist + NewEntries(candidates, playlist));
  }

  lemma {:induction false} NothingNewFromListed(candidates: seq<string>, playlist: seq<string>)
    requires forall k :: 0 <= k < |candidates| ==> candidates[k] in playlist
    ensures NewEntries(candidates, playlist) == []
  {
    if candidates != [] {
      NothingNewFromListed(candidates[1..], playlist);
    }
  }

  /** A duplicate-free playlist stays duplicate-free when a duplicate-free batch is added. */
  lemma AddingKeepsNoDuplicates(playlist: seq<string>, candidates: seq<string>)
    requires NoDuplicates(playlist) && NoDuplicates(candidates)
    ensures NoDuplicates(playlist + NewEntries(candidates, playlist))
  {
    NewEntriesNoDuplicates(candidates, playlist);
    var added := NewEntries(candidates, playlist);
    var t := playlist + added;
    forall a, b | 0 <= a < b < |t| ensures t[a] != t[b] {
      if b >= |playlist| {
        assert t[b] == added[b - |playlist|] && t[b] in added;
        if a < |playlist| { assert t[a] in playlist; } else { assert t[a] == added[a - |playlist|]; }
      }
    }
  }

  lemma {:induction false} NewEntriesNoDuplicates(candidates: seq<string>, playlist: seq<string>)
    requires NoDuplicates(candidates)
    ensures NoDuplicates(NewEntries(candidates, playlist))
  {
    if candidates != [] {
      var rest := candidates[1..];
      NewEntriesNoDuplicates(rest, playlist);
    }
  }

  /** The filter does not de-duplicate inside one batch: a path given twice is appended twice. */
  lemma RepeatedCandidateIsAddedTwice()
    ensures NewEntries(["a.mp3", "a.mp3"], []) == ["a.mp3", "a.mp3"]
  {
    assert NewEntries(["a.mp3", "a.mp3"][1..], []) == ["a.mp3"];
  }

  /** `file.lower().endswith('.mp3')`. */
  predicate HasMp3Extension(name: string) {
    EndsWith(Lower(name), ".mp3")
  }

  /** `[os.path.join(folder, n) for n in names if n.lower().endswith('.mp3')]`. */
  function Mp3Paths(folder: string, names: seq<string>): (r: seq<string>)
    ensures |r| <= |names|
  {
    if names == [] then []
    else (if HasMp3Extension(names[0]) then [Join(folder, names[0])] else []) + Mp3Paths(folder, names[1..])
  }

  lemma {:induction false} Mp3PathsOfConcat(folder: string, a: seq<string>, b: seq<string>)
    ensures Mp3Paths(folder, a + b) == Mp3Paths(folder, a) + Mp3Paths(folder, b)
  {
    if a != [] {
      assert (a + b)[1..] == a[1..] + b;
      Mp3PathsOfConcat(folder, a[1..], b);
    } else {
      assert a + b == b;
    }
  }

  /** Every path taken from a folder listing names an MP3 entry of that listing and lies in the folder. */
  lemma {:induction false} Mp3PathsAreMp3Entries(folder: string, names: seq<string>, x: string)
    requires forall k :: 0 <= k < |names| ==> '/' !in names[k]
    requires x in Mp3Paths(folder, names)
    ensures HasMp3Extension(BaseName(x)) && BaseName(x) in names
  {
    var first := if HasMp3Extension(names[0]) then [Join(folder, names[0])] else [];
    if x in first {
      BaseNameOfJoin(folder, names[0]);
    } else {
      Mp3PathsAreMp3Entries(folder, names[1..], x);
    }
  }

  /** Conversely, every MP3 name of the listing gives a path. */
  lemma {:induction false} Mp3PathsComplete(folder: string, names: seq<string>, n: string)
    requires n in names && HasMp3Extension(n)
    ensures Join(folder, n) in Mp3Paths(folder, names)
  {
    var first := if HasMp3Extension(names[0]) then [Join(folder, names[0])] else [];
    if names[0] != n {
      Mp3PathsComplete(folder, names[1..], n);
      assert Mp3Paths(folder, names) == first + Mp3Paths(folder, names[1..]);
    }
  }

  // ===== folder listings =====

  /** The paths `add_folder` appends: the MP3 entries of the sorted listing, joined to the folder, not yet listed. */
  function FolderAdditions(folder: string, listing: seq<string>, playlist: seq<string>): seq<string> {
    NewEntries(Mp3Paths(folder, StringOrder.Sort(listing)), playlist)
  }

  /**
   * Each path added from a folder is an MP3 entry of that folder's listing
   * and not yet in the playlist, and the additions come in sorted order.
   */
  lemma FolderAdditionsAreSortedMp3Entries(folder: string, listing: seq<string>, playlist: seq<string>)
    requires forall k :: 0 <= k < |listing| ==> '/' !in listing[k]
    ensures var added := FolderAdditions(folder, listing, playlist);
      && StringOrder.Sorted(added)
      && forall x :: x in added ==> x !in playlist && HasMp3Extension(BaseName(x)) && BaseName(x) in listing
  {
    var names := StringOrder.Sort(listing);
    assert multiset(names) == multiset(listing);
    forall k | 0 <= k < |names| ensures '/' !in names[k] {
      assert names[k] in multiset(listing);
    }
    Mp3PathsSorted(folder, names);
    NewEntriesSorted(Mp3Paths(folder, names), playlist);
    forall x | x in FolderAdditions(folder, listing, playlist)
      ensures HasMp3Extension(BaseName(x)) && BaseName(x) in listing
    {
      Mp3PathsAreMp3Entries(folder, names, x);
      assert BaseName(x) in multiset(names);
    }
  }

  /** Every MP3 entry of the listing whose path is not yet in the playlist is added. */
  lemma FolderAdditionsComplete(folder: string, listing: seq<string>, playlist: seq<string>, n: string)
    requires n in listing && HasMp3Extension(n) && Join(folder, n) !in playlist
    ensures Join(folder, n) in FolderAdditions(folder, listing, playlist)
  {
    var names := StringOrder.Sort(listing);
    assert n in names by {
      assert multiset(names) == multiset(listing);
      assert n in multiset(listing);
    }
    Mp3PathsComplete(folder, names, n);
  }

  lemma {:induction false} NewEntriesSorted(candidates: seq<string>, playlist: seq<string>)
    requires StringOrder.Sorted(candidates)
    ensures StringOrder.Sorted(NewEntries(candidates, playlist))
  {
    if candidates != [] {
      var rest := NewEntries(candidates[1..], playlist);
      NewEntriesSorted(candidates[1..], playlist);
      forall j | 0 <= j < |rest| ensures StringOrder.LessOrEqual(candidates[0], rest[j]) {
        assert rest[j] in candidates[1..];
        var k :| 0 <= k < |candidates[1..]| && candidates[1..][k] == rest[j];
        assert candidates[k + 1] == rest[j];
      }
    }
  }

  lemma {:induction false} Mp3PathsSorted(folder: string, names: seq<string>)
    requires StringOrder.Sorted(names)
    requires forall k :: 0 <= k < |names| ==> '/' !in names[k]
    ensures StringOrder.Sorted(Mp3Paths(folder, names))
  {
    if names != [] {
      var rest := Mp3Paths(folder, names[1..]);
      Mp3PathsSorted(folder, names[1..]);
      if HasMp3Extension(names[0]) {
        forall j | 0 <= j < |rest| ensures StringOrder.LessOrEqual(Join(folder, names[0]), rest[j]) {
          var n := Mp3PathsEntry(folder, names[1..], rest[j]);
          var k :| 0 <= k < |names[1..]| && names[1..][k] == n;
          assert names[k + 1] == n;
          JoinKeepsOrder(folder, names[0], n);
        }
      }
    }
  }

  /** The entry name a path of `Mp3Paths` was built from. */
  lemma {:induction false} Mp3PathsEntry(folder: string, names: seq<string>, x: string) returns (n: string)
    requires x in Mp3Paths(folder, names)
    ensures n in names && x == Join(folder, n)
  {
    if HasMp3Extension(names[0]) && x == Join(folder, names[0]) {
      n := names[0];
    } else {
      n := Mp3PathsEntry(folder, names[1..], x);
    }
  }

  /** Joining two entry names to the same folder keeps their order. */
  lemma JoinKeepsOrder(folder: string, a: string, b: string)
    requires '/' !in a && '/' !in b
    requires StringOrder.LessOrEqual(a, b)
    ensures StringOrder.LessOrEqual(Join(folder, a), Join(folder, b))
  {
    var dir := if folder == [] || folder[|folder| - 1] == '/' then folder else folder + "/";
    assert a != [] ==> a[0] != '/';
    assert b != [] ==> b[0] != '/';
    assert Join(folder, a) == dir + a && Join(folder, b) == dir + b;
    PrefixKeepsOrder(dir, a, b);
  }

  lemma {:induction false} PrefixKeepsOrder(p: string, a: string, b: string)
    requires StringOrder.LessOrEqual(a, b)
    ensures StringOrder.LessOrEqual(p + a, p + b)
    decreases |p|
  {
    if p != [] {
      assert (p + a)[1..] == p[1..] + a && (p + b)[1..] == p[1..] + b;
      PrefixKeepsOrder(p[1..], a, b);
    } else {
      assert p + a == a && p + b == b;
    }
  }

  /**
   * The loop of `add_folder`: walks the sorted entry names and keeps the
   * joined path of each MP3 entry that the playlist does not hold yet.
   */
  method CollectMp3Files(folderPath: string, names: seq<string>, playlist: seq<string>) returns (mp3Files: seq<string>)
    ensures mp3Files == NewEntries(Mp3Paths(folderPath, names), playlist)
  {
    mp3Files := [];
    var k := 0;
    while k < |names|
      invariant 0 <= k <= |names|
      invariant mp3Files == NewEntries(Mp3Paths(folderPath, names[..k]), playlist)
    {
      var file := names[k];
      ghost var one := Mp3Paths(folderPath, [file]);
      assert names[..k + 1] == names[..k] + [file];
      assert [file][1..] == [];
      assert one == if HasMp3Extension(file) then [Join(folderPath, file)] else [];
      assert one != [] ==> one[1..] == [];
      assert NewEntries(one, playlist) == if HasMp3Extension(file) && Join(folderPath, file) !in playlist then [Join(folderPath, file)] else [];
      Mp3PathsOfConcat(folderPath, names[..k], [file]);
      NewEntriesOfConcat(Mp3Paths(folderPath, names[..k]), one, playlist);
      if HasMp3Extension(file) {
        var fullPath := Join(folderPath, file);
        if fullPath !in playlist {
          mp3Files := mp3Files + [fullPath];
        }
      }
      k := k + 1;
    }
    assert names[..k] == names;
  }

  // ===== state transitions =====

  /** `load_song(index, ...)` succeeds: the index selects a track and the mixer opens it. */
  predicate CanLoad(s: Snapshot, index: int, disk: Disk) {
    0 <= index < |s.playlist| && s.playlist[index] !in disk.loadErrors
  }

  /**
   * `load_song(index, autoplay)`: nothing changes for a bad index or a file
   * the mixer cannot open; otherwise the song length is read (0 on failure),
   * the offset is reset, the mixer holds the track, and playback starts
   * exactly when `autoplay` is set.
   */
  function AfterLoad(s: Snapshot, index: int, autoplay: bool, disk: Disk): Snapshot {
    if CanLoad(s, index, disk) then
      s.(songLength := disk.Duration(s.playlist[index]), pausePosition := 0.0, isPlaying := autoplay, isPaused := false,
        musicLoaded := true)
    else s
  }

  /** The mixer commands `load_song` sends. */
  function LoadCalls(s: Snapshot, index: int, autoplay: bool, disk: Disk): seq<MixerCall> {
    if CanLoad(s, index, disk) then [LoadFile(s.playlist[index])] + (if autoplay then [PlayFrom(0.0)] else []) else []
  }

  lemma AfterLoadKeepsConsistent(s: Snapshot, index: int, autoplay: bool, disk: Disk)
    requires Consistent(s)
    ensures Consistent(AfterLoad(s, index, autoplay, disk))
  {
  }

  /** A load that succeeds leaves the player stopped or actively playing from offset 0, as `autoplay` asks. */
  lemma AfterLoadState(s: Snapshot, index: int, autoplay: bool, disk: Disk)
    requires CanLoad(s, index, disk)
    ensures var t := AfterLoad(s, index, autoplay, disk);
      && (if autoplay then ActivelyPlaying(t) else Stopped(t))
      && t.pausePosition == 0.0 && !t.isPaused && t.musicLoaded
      && t.playlist == s.playlist && t.currentIndex == s.currentIndex && t.shuffleMode == s.shuffleMode
  {
  }

  /**
   * Appending the new paths `added` (none already listed): when the playlist
   * was empty the first track is selected and loaded without autoplay.
   */
  function AfterAdd(s: Snapshot, added: seq<string>, disk: Disk): Snapshot {
    var t := s.(playlist := s.playlist + added);
    if added != [] && s.playlist == [] then AfterLoad(t.(currentIndex := 0), 0, false, disk) else t
  }

  /** The mixer commands of an addition: those of loading track 0 when the playlist was empty. */
  function AddCalls(s: Snapshot, added: seq<string>, disk: Disk): seq<MixerCall> {
    if added != [] && s.playlist == [] then LoadCalls(s.(playlist := s.playlist + added, currentIndex := 0), 0, false, disk) else []
  }

  lemma AfterAddKeepsConsistent(s: Snapshot, added: seq<string>, disk: Disk)
    requires Consistent(s)
    ensures Consistent(AfterAdd(s, added, disk))
  {
  }

  /**
   * The old playlist is an unchanged prefix of the new one; track 0 is
   * selected and loaded without autoplay exactly when the playlist was empty;
   * otherwise no playback field changes.
   */
  lemma AfterAddEffect(s: Snapshot, added: seq<string>, disk: Disk)
    requires Consistent(s) && added != []
    ensures var t := AfterAdd(s, added, disk);
      && t.playlist == s.playlist + added
      && t.playlist[..|s.playlist|] == s.playlist
      && (s.playlist == [] ==> t.currentIndex == 0 && !t.isPlaying && !t.isPaused
                               && (added[0] !in disk.loadErrors ==> t.pausePosition == 0.0 && t.songLength == disk.Duration(added[0])))
      && (s.playlist != [] ==> t == s.(playlist := s.playlist + added))
  {
  }

  /**
   * `play_pause()`: nothing on an empty playlist; otherwise
   * stopped -> playing from 0, playing -> paused at the current position,
   * paused -> playing on from the same offset. When the mixer holds no
   * track, the `play()` of the stopped case raises and nothing changes.
   */
  function AfterPlayPause(s: Snapshot, posMs: int): Snapshot {
    if s.playlist == [] then s
    else if s.isPlaying && s.isPaused then s.(isPaused := false)
    else if s.isPlaying then s.(pausePosition := Position(s, posMs), isPaused := true)
    else if s.musicLoaded then s.(isPlaying := true, isPaused := false, pausePosition := 0.0)
    else s
  }

  /**
   * `play_pause()` reaches `pygame.mixer.music.play()` while the mixer holds
   * no track, so pygame raises "music not loaded".
   */
  predicate PlayNotLoaded(s: Snapshot) {
    s.playlist != [] && !s.isPlaying && !s.musicLoaded
  }

  /** The mixer command `play_pause` sends. */
  function PlayPauseCalls(s: Snapshot): seq<MixerCall> {
    if s.playlist == [] then []
    else if s.isPlaying && s.isPaused then [Unpause]
    else if s.isPlaying then [Pause]
    else if s.musicLoaded then [PlayFrom(0.0)]
    else []
  }

  lemma AfterPlayPauseKeepsConsistent(s: Snapshot, posMs: int)
    requires Consistent(s)
    ensures Consistent(AfterPlayPause(s, posMs))
  {
  }

  /** The three transitions, and the fact that only the flags and the offset move. */
  lemma PlayPauseCycle(s: Snapshot, posMs: int)
    requires Consistent(s) && s.playlist != []
    ensures var t := AfterPlayPause(s, posMs);
      && (Stopped(s) && s.musicLoaded ==> ActivelyPlaying(t) && t.pausePosition == 0.0)
      && (PlayNotLoaded(s) ==> t == s && PlayPauseCalls(s) == [])
      && (ActivelyPlaying(s) ==> Paused(t) && t.pausePosition == Position(s, posMs))
      && (Paused(s) ==> ActivelyPlaying(t) && t.pausePosition == s.pausePosition)
      && t.playlist == s.playlist && t.currentIndex == s.currentIndex
      && t.songLength == s.songLength && t.shuffleMode == s.shuffleMode
  {
  }

  /**
   * Adding files to an empty playlist when the mixer has never opened a
   * track, with a first file it cannot open: the autoload fails, and the
   * next `play_pause` raises instead of starting playback.
   */
  lemma FailedFirstLoadBlocksPlay(s: Snapshot, added: seq<string>, disk: Disk, posMs: int)
    requires Consistent(s) && s.playlist == [] && !s.musicLoaded
    requires added != [] && added[0] in disk.loadErrors
    ensures var t := AfterAdd(s, added, disk);
      && PlayNotLoaded(t) && AfterPlayPause(t, posMs) == t && PlayPauseCalls(t) == []
  {
  }

  /**
   * Once the mixer holds a track it keeps one through every transition, so
   * `play_pause` can raise only before the first successful load.
   */
  lemma MixerKeepsTrack(s: Snapshot, index: int, autoplay: bool, added: seq<string>, posMs: int, p: real, disk: Disk)
    requires s.musicLoaded
    ensures AfterLoad(s, index, autoplay, disk).musicLoaded && AfterAdd(s, added, disk).musicLoaded
    ensures AfterPlayPause(s, posMs).musicLoaded && AfterStep(s, index, disk).musicLoaded
    ensures AfterSeek(s, p).musicLoaded && AfterToggleShuffle(s).musicLoaded
    ensures !PlayNotLoaded(s)
  {
  }

  /** Pausing freezes the position at the value it had at the pause instant, whatever the mixer reports later. */
  lemma PauseFreezesPosition(s: Snapshot, posMs: int, later: int)
    requires s.playlist != [] && ActivelyPlaying(s)
    ensures Position(AfterPlayPause(s, posMs), later) == Position(s, posMs)
  {
  }

  /** `next_song` and `previous_song` once the new index is chosen: select it and reload, keeping the playing intent. */
  function AfterStep(s: Snapshot, next: int, disk: Disk): Snapshot {
    if s.playlist == [] then s
    else AfterLoad(s.(currentIndex := next), next, s.isPlaying, disk)
  }

  lemma AfterStepKeepsConsistent(s: Snapshot, next: int, disk: Disk)
    requires Consistent(s)
    requires s.playlist != [] ==> 0 <= next < |s.playlist|
    ensures Consistent(AfterStep(s, next, disk))
  {
  }

  /** After a step the index is the chosen one, and a playing player plays the new track from its start. */
  lemma AfterStepEffect(s: Snapshot, next: int, disk: Disk)
    requires Consistent(s) && s.playlist != [] && 0 <= next < |s.playlist|
    ensures var t := AfterStep(s, next, disk);
      && t.currentIndex == next && t.playlist == s.playlist
      && (s.playlist[next] !in disk.loadErrors ==> t.isPlaying == s.isPlaying && !t.isPaused && t.pausePosition == 0.0)
  {
  }

  /**
   * A seek to `p` once its guard has passed: playback is on at offset `p`, and
   * paused unless the player was actively playing before.
   */
  function AfterSeek(s: Snapshot, p: real): Snapshot {
    s.(isPlaying := true, pausePosition := p, isPaused := !ActivelyPlaying(s), musicLoaded := true)
  }

  /** The mixer commands of a seek: reload, play from `p`, and pause again if it was not actively playing. */
  function SeekCalls(s: Snapshot, p: real): seq<MixerCall>
    requires 0 <= s.currentIndex < |s.playlist|
  {
    [Stop, LoadFile(s.playlist[s.currentIndex]), PlayFrom(p)] + (if ActivelyPlaying(s) then [] else [Pause])
  }

  lemma AfterSeekKeepsConsistent(s: Snapshot, p: real)
    requires Consistent(s) && s.playlist != []
    ensures Consistent(AfterSeek(s, p))
  {
  }

  /**
   * After a seek from a stopped or paused player the position is exactly
   * `p`; from an actively playing one it is `p` plus the mixer's elapsed time.
   */
  lemma SeekSetsPosition(s: Snapshot, p: real, posMs: int)
    ensures !ActivelyPlaying(s) ==> Paused(AfterSeek(s, p)) && Position(AfterSeek(s, p), posMs) == p
    ensures ActivelyPlaying(s) && posMs >= 0 ==>
      ActivelyPlaying(AfterSeek(s, p)) && Position(AfterSeek(s, p), posMs) == p + posMs as real / 1000.0
  {
  }

  function AfterToggleShuffle(s: Snapshot): Snapshot {
    s.(shuffleMode := !s.shuffleMode)
  }

  /** Toggling shuffle twice restores the state, and toggling keeps the invariant. */
  lemma ToggleShuffleTwice(s: Snapshot)
    ensures AfterToggleShuffle(AfterToggleShuffle(s)) == s
    ensures Consistent(s) ==> Consistent(AfterToggleShuffle(s))
  {
  }
}
