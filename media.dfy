/**
 * What the player sees of the world outside its own fields: the file system
 * (directory listings, existence, files the audio mixer cannot open, track
 * durations read from the MP3 metadata), the commands it sends to the audio
 * mixer, and the notifications it sends to its listener.
 */
module Media {
  import opened Wrappers

  /**
   * A read-only view of the disk at the moment of a call.
   * `listings[d]` is `os.listdir(d)` (in no particular order); `files` are
   * the other paths for which `os.path.exists` holds; `loadErrors[p]` is the
   * message of the exception the mixer raises when asked to load `p`;
   * `durations[p]` is the length the metadata reader reports for `p`, and a
   * path without one is a file whose metadata cannot be read.
   */
  datatype Disk = Disk(
    listings: map<string, seq<string>>,
    files: set<string>,
    loadErrors: map<string, string>,
    durations: map<string, real>)
  {
    /** `os.path.exists(p)`, for directories and files alike. */
    predicate Exists(p: string) {
      p in listings || p in files
    }

    /** The message of the exception `os.listdir(p)` raises for a path that is no directory. */
    function ListDirError(p: string): string {
      if p in files then "[Errno 20] Not a directory: '" + p + "'"
      else "[Errno 2] No such file or directory: '" + p + "'"
    }

    /** The song length `load_song` records: the metadata's, or 0 when reading it fails. */
    function Duration(p: string): real {
      if p in durations then durations[p] else 0.0
    }
  }

  /** A command sent to the audio mixer (`pygame.mixer.music`). */
  datatype MixerCall =
    | LoadFile(path: string)
    | PlayFrom(start: real)   // play(); play(start=p) for a seek
    | Pause
    | Unpause
    | Stop

  /** A call to one of the listener callbacks the presentation layer registers. */
  datatype Notice =
    | SongChanged(name: Option<string>, length: real, index: int)
    | PlaybackStateChanged(playing: bool, paused: bool)
    | PlaylistUpdated(playlist: seq<string>)
    | Failure(message: string)

  /** How a Python call ends: it returns a value, or an exception escapes it. */
  datatype Call<+T> = Returned(value: T) | Raised(error: string)

  /** Two appends to a log add both parts, in order (a proof step for the methods that log twice). */
  lemma AppendedTwice<T>(log: seq<T>, a: seq<T>, b: seq<T>)
    ensures log + a + b == log + (a + b)
  {
  }
}
