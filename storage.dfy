/**
 * The server's two storage directories (`temp` for staged cookie files,
 * `downloads` for artifacts) and what the server does with them: the periodic
 * sweep of old files, the lookup of an artifact by its request token, the
 * content type of a served file, and the once-only deletion after delivery.
 */
module Storage {
  import opened Common
  import opened Text

  datatype Dir = Temp | Downloads

  /** A file of one of the two storage directories. */
  datatype Path = Path(dir: Dir, name: string)

  /**
   * A file's text and its modification time in milliseconds since the epoch, as
   * `mtimeMs` reports it: a fractional number of milliseconds.
   */
  datatype FileEntry = FileEntry(content: string, mtime: real)

  /** The storage directories as the file system holds them. */
  class Disk {
    var files: map<Path, FileEntry>

    constructor (initial: map<Path, FileEntry>)
      ensures files == initial
    {
      files := initial;
    }

    /** `existsSync`. */
    predicate Exists(p: Path)
      reads this
    {
      p in files
    }

    /** `writeFileSync`: creates or overwrites `p` with `content`, stamped with the millisecond clock `now`. */
    method WriteFile(p: Path, content: string, now: int)
      modifies this
      ensures files == old(files)[p := FileEntry(content, now as real)]
    {
      files := files[p := FileEntry(content, now as real)];
    }

    /**
     * `unlinkSync`: removes `p`, or throws (`ok` false) when `p` does not exist
     * or the operating system refuses (`refused`: permissions, a file in use).
     */
    method Unlink(p: Path, refused: bool) returns (ok: bool)
      modifies this
      ensures ok == (p in old(files) && !refused)
      ensures files == if ok then old(files) - {p} else old(files)
    {
      ok := p in files && !refused;
      if ok {
        files := files - {p};
      }
    }
  }

  // ---------------------------------------------------------------------------
  // Housekeeping sweep

  /** Retention window of the sweep: 30 minutes, in milliseconds. */
  const MaxAgeMs: int := 30 * 60 * 1000

  /** A file is swept when it is strictly older than the retention window; `Date.now()` is whole milliseconds. */
  predicate Expired(e: FileEntry, now: int) {
    now as real - e.mtime > MaxAgeMs as real
  }

  /**
   * The files of `files` after the sweep has visited the paths in `visited`: a
   * visited file is gone when it has expired and its removal did not throw.
   */
  function SweptOver(files: map<Path, FileEntry>, now: int, faulty: set<Path>, visited: set<Path>)
    : map<Path, FileEntry>
  {
    map p | p in files && !(p in visited && Expired(files[p], now) && p !in faulty) :: files[p]
  }

  /** The files left by a complete sweep at time `now`, when removing the files in `faulty` throws. */
  function AfterSweep(files: map<Path, FileEntry>, now: int, faulty: set<Path>): map<Path, FileEntry> {
    SweptOver(files, now, faulty, files.Keys)
  }

  /**
   * `cleanOldFiles`: for each directory, for each file listed in it, remove the
   * file when it is older than the retention window; a file whose removal
   * throws is left in place and the sweep goes on with the next one.
   */
  method CleanOldFiles(disk: Disk, now: int, faulty: set<Path>)
    modifies disk
    ensures disk.files == AfterSweep(old(disk.files), now, faulty)
  {
    ghost var initial := disk.files;
    ghost var visited: set<Path> := {};
    var dirs := [Temp, Downloads];
    var d := 0;
    while d < |dirs|
      invariant 0 <= d <= |dirs|
      invariant visited == set p | p in initial && p.dir in dirs[..d]
      invariant disk.files == SweptOver(initial, now, faulty, visited)
    {
      var dir := dirs[d];
      assert forall q :: q in visited ==> q.dir != dir;
      SweepDir(disk, dir, now, faulty, initial, visited);
      visited := visited + set p | p in initial && p.dir == dir;
      d := d + 1;
      assert dirs[..d] == dirs[..d - 1] + [dir];
    }
    assert dirs[..d] == dirs;
    assert forall p: Path :: p.dir == dirs[0] || p.dir == dirs[1];
    assert visited == initial.Keys;
  }

  /** The sweep of one directory: each file listed in `dir` is visited once, in any order. */
  method SweepDir(disk: Disk, dir: Dir, now: int, faulty: set<Path>,
                  ghost initial: map<Path, FileEntry>, ghost visited: set<Path>)
    requires disk.files == SweptOver(initial, now, faulty, visited)
    requires forall q :: q in visited ==> q.dir != dir
    modifies disk
    ensures disk.files == SweptOver(initial, now, faulty, visited + set p | p in initial && p.dir == dir)
  {
    var listing := set p | p in disk.files && p.dir == dir;
    assert listing == set p | p in initial && p.dir == dir;
    var pending := listing;
    while pending != {}
      invariant pending <= listing
      invariant disk.files == SweptOver(initial, now, faulty, visited + (listing - pending))
      decreases pending
    {
      var p :| p in pending;
      SweepFile(disk, p, now, faulty, initial, visited + (listing - pending));
      assert visited + (listing - pending) + {p} == visited + (listing - (pending - {p}));
      pending := pending - {p};
    }
  }

  /** One step of the sweep: the file `p`, not yet visited, is removed when it has expired and its removal does not throw. */
  method SweepFile(disk: Disk, p: Path, now: int, faulty: set<Path>,
                   ghost initial: map<Path, FileEntry>, ghost done: set<Path>)
    requires disk.files == SweptOver(initial, now, faulty, done) && p !in done
    modifies disk
    ensures disk.files == SweptOver(initial, now, faulty, done + {p})
  {
    if p in disk.files {
      if now as real - disk.files[p].mtime > MaxAgeMs as real {
        var _ := disk.Unlink(p, p in faulty);
      }
    }
  }

  /**
   * What one sweep does to each file: it removes exactly the files strictly older
   * than 30 minutes whose removal does not throw, and leaves every other file as it was.
   */
  lemma SweepEffect(files: map<Path, FileEntry>, now: int, faulty: set<Path>, p: Path)
    requires p in files
    ensures p !in AfterSweep(files, now, faulty) <==> now as real - files[p].mtime > 1800000.0 && p !in faulty
    ensures p in AfterSweep(files, now, faulty) ==> AfterSweep(files, now, faulty)[p] == files[p]
  {
  }

  /**
   * A file exactly 30 minutes old survives the sweep, and so does a younger one;
   * one older by any fraction of a millisecond is removed.
   */
  lemma SweepBoundary(files: map<Path, FileEntry>, now: int, p: Path)
    requires p in files
    ensures files[p].mtime >= (now - 1800000) as real ==> p in AfterSweep(files, now, {})
    ensures files[p].mtime < (now - 1800000) as real ==> p !in AfterSweep(files, now, {})
  {
  }

  /** A second sweep at the same time removes nothing more. */
  lemma SweepIdempotent(files: map<Path, FileEntry>, now: int, faulty: set<Path>)
    ensures AfterSweep(AfterSweep(files, now, faulty), now, faulty) == AfterSweep(files, now, faulty)
  {
  }

  // ---------------------------------------------------------------------------
  // Artifact lookup

  const ArtifactMissingMessage: string := "Download failed - file not created"

  /** `listing.filter(f => f.startsWith(fileId))`: the matching entries, in listing order. */
  function MatchingEntries(listing: seq<string>, fileId: string): seq<string>
    decreases |listing|
  {
    if listing == [] then []
    else (if StartsWith(listing[0], fileId) then [listing[0]] else []) + MatchingEntries(listing[1..], fileId)
  }

  /** The artifact of a download: the first matching directory entry, or the missing-file failure. */
  function FindArtifact(listing: seq<string>, fileId: string): Result<string> {
    var files := MatchingEntries(listing, fileId);
    if |files| == 0 then Err(ArtifactMissingMessage) else Ok(files[0])
  }

  /**
   * The lookup finds an artifact exactly when some entry starts with the token,
   * and then it is the first such entry in listing order; otherwise the request
   * fails with 'Download failed - file not created'.
   */
  lemma {:induction false} FindArtifactIsFirstMatch(listing: seq<string>, fileId: string)
    ensures FindArtifact(listing, fileId).Ok? <==> exists i :: 0 <= i < |listing| && StartsWith(listing[i], fileId)
    ensures FindArtifact(listing, fileId).Err? ==> FindArtifact(listing, fileId).message == ArtifactMissingMessage
    ensures FindArtifact(listing, fileId).Ok? ==>
              exists i :: 0 <= i < |listing| && listing[i] == FindArtifact(listing, fileId).value &&
                          StartsWith(listing[i], fileId) && forall j :: 0 <= j < i ==> !StartsWith(listing[j], fileId)
    decreases |listing|
  {
    if listing != [] {
      FindArtifactIsFirstMatch(listing[1..], fileId);
      if !StartsWith(listing[0], fileId) {
        assert MatchingEntries(listing, fileId) == MatchingEntries(listing[1..], fileId);
        forall i | 1 <= i < |listing| ensures listing[i] == listing[1..][i - 1] { }
        if FindArtifact(listing[1..], fileId).Ok? {
          var i :| 0 <= i < |listing[1..]| && listing[1..][i] == FindArtifact(listing[1..], fileId).value &&
                   StartsWith(listing[1..][i], fileId) && forall j :: 0 <= j < i ==> !StartsWith(listing[1..][j], fileId);
          assert listing[i + 1] == listing[1..][i];
        }
      } else {
        assert MatchingEntries(listing, fileId)[0] == listing[0];
      }
    }
  }

  // ---------------------------------------------------------------------------
  // Content type of a served file

  /** `filename.split('.').pop().toLowerCase()`. */
  function Extension(filename: string): string {
    var parts := Split(filename, '.');
    Lower(parts[|parts| - 1])
  }

  /** The Content-Type of a served file: MP3 audio by extension, MP4 video for everything else. */
  function ContentType(filename: string): string {
    if Extension(filename) == "mp3" then "audio/mpeg" else "video/mp4"
  }

  /**
   * The content type is decided by the text after the last '.', in any letter
   * case; a name without a '.' is judged by the whole name.
   */
  lemma ContentTypeByExtension(stem: string, ext: string)
    requires '.' !in ext
    ensures ContentType(stem + "." + ext) == if Lower(ext) == "mp3" then "audio/mpeg" else "video/mp4"
    ensures ContentType(ext) == if Lower(ext) == "mp3" then "audio/mpeg" else "video/mp4"
  {
    LastPartAfterSeparator(stem, '.', ext);
    assert stem + "." + ext == stem + ['.'] + ext;
  }

  // ---------------------------------------------------------------------------
  // Delivery and once-only deletion

  /** The events on which the file route asks for the served file to be deleted. */
  datatype DeliveryEvent = ResponseFinished | ConnectionClosed | StreamFailed

  /** The `deleteFile` closure of one served file, with its `isDeleted` flag. */
  class Delivery {
    const path: Path
    var isDeleted: bool
    /** Number of deletions handed to the one-second timer. */
    var scheduled: nat

    /** At most one deletion is ever scheduled, and it is scheduled once the flag is set. */
    ghost predicate Valid()
      reads this
    {
      scheduled == if isDeleted then 1 else 0
    }

    constructor (path: Path)
      ensures Valid() && this.path == path && !isDeleted
    {
      this.path := path;
      isDeleted := false;
      scheduled := 0;
    }

    /** `deleteFile`: the first call sets the flag and schedules the deletion; later calls return at once. */
    method DeleteFile()
      requires Valid()
      modifies this
      ensures Valid() && isDeleted
      ensures scheduled == 1
      ensures old(isDeleted) ==> scheduled == old(scheduled)
    {
      if isDeleted {
        return;
      }
      isDeleted := true;
      scheduled := scheduled + 1;
    }

    /** Every finish, close or stream error calls `deleteFile`; however many fire, one deletion is scheduled. */
    method Dispatch(events: seq<DeliveryEvent>)
      requires Valid()
      modifies this
      ensures Valid()
      ensures isDeleted == (old(isDeleted) || |events| > 0)
      ensures scheduled <= 1
    {
      var i := 0;
      while i < |events|
        invariant 0 <= i <= |events|
        invariant Valid()
        invariant isDeleted == (old(isDeleted) || i > 0)
      {
        match events[i] {
          case ResponseFinished => DeleteFile();
          case ConnectionClosed => DeleteFile();
          case StreamFailed => DeleteFile();
        }
        i := i + 1;
      }
    }

    /**
     * The scheduled deletion, a second later: remove the file if it still exists;
     * a removal that throws is swallowed and leaves the file.
     */
    method ScheduledDeletion(disk: Disk, refused: bool)
      modifies disk
      ensures disk.files == if path in old(disk.files) && !refused then old(disk.files) - {path} else old(disk.files)
    {
      if disk.Exists(path) {
        var _ := disk.Unlink(path, refused);
      }
    }
  }
}
