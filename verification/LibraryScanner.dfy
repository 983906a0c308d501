/** The library scan: a batched walk over the audio files, then on a full scan
    the removal of rows for files that are gone and the cascade behind them. */
module LibraryScanner {
  import opened Prelude
  import opened LibraryIndex

  datatype ScanResult = ScanResult(added: nat, updated: nat, removed: nat, skipped: nat, errors: nat)
  {
    function Count(status: Status): ScanResult {
      match status
      case Added => this.(added := added + 1)
      case Updated => this.(updated := updated + 1)
      case Skipped => this.(skipped := skipped + 1)
      case Error => this.(errors := errors + 1)
    }
    function Seen(): nat {
      added + updated + skipped + errors
    }
  }

  const NOTHING := ScanResult(0, 0, 0, 0, 0)

  datatype Pass = Pass(db: Db, result: ScanResult)

  /** Each file processed once, in order. */
  function Walk(nm: Naming, db: Db, disk: Disk, paths: seq<Path>, incremental: bool): Pass {
    if paths == [] then Pass(db, NOTHING)
    else
      var done := Walk(nm, db, disk, paths[..|paths| - 1], incremental);
      var p := paths[|paths| - 1];
      Pass(Processed(nm, done.db, disk, p, incremental),
           done.result.Count(ProcessStatus(nm, done.db, disk, p, incremental)))
  }

  // ---- The cascade of a full scan ----

  function LiveTracks(files: map<Path, FileRow>): set<TrackId> {
    set p | p in files :: files[p].track
  }

  function LiveAlbums(tracks: map<TrackId, TrackRow>): set<AlbumId> {
    set t | t in tracks && tracks[t].album.Some? :: tracks[t].album.value
  }

  function LiveArtists(tracks: map<TrackId, TrackRow>): set<ArtistId> {
    set t | t in tracks :: tracks[t].artist
  }

  function KeepAlbums(albums: seq<AlbumRow>, live: set<AlbumId>): seq<AlbumRow> {
    if albums == [] then []
    else (if albums[0].id in live then [albums[0]] else []) + KeepAlbums(albums[1..], live)
  }

  function KeepArtists(artists: map<ArtistId, ArtistRow>, live: set<ArtistId>): map<ArtistId, ArtistRow> {
    map a | a in artists && a in live :: artists[a]
  }

  /** Albums and artists are swept only when some track was. */
  function Swept(db: Db, gone: set<Path>): Db {
    var files := db.files - gone;
    var orphans := db.tracks.Keys - LiveTracks(files);
    var tracks := db.tracks - orphans;
    if orphans == {} then db.(files := files)
    else db.(files := files, tracks := tracks, albums := KeepAlbums(db.albums, LiveAlbums(tracks)),
             artists := KeepArtists(db.artists, LiveArtists(tracks)))
  }

  function Gone(db: Db, paths: seq<Path>): set<Path> {
    db.files.Keys - SeenOf(paths)
  }

  function Scanned(nm: Naming, db: Db, disk: Disk, paths: seq<Path>, incremental: bool): Pass {
    var pass := Walk(nm, db, disk, paths, incremental);
    if incremental then pass
    else Pass(Swept(pass.db, Gone(db, paths)), pass.result.(removed := |Gone(db, paths)|))
  }

  // ---- The scan itself ----

  lemma WalkSnoc(nm: Naming, db: Db, disk: Disk, paths: seq<Path>, p: Path, incremental: bool)
    ensures var done := Walk(nm, db, disk, paths, incremental);
            Walk(nm, db, disk, paths + [p], incremental)
            == Pass(Processed(nm, done.db, disk, p, incremental),
                    done.result.Count(ProcessStatus(nm, done.db, disk, p, incremental)))
  {
    assert (paths + [p])[..|paths|] == paths;
  }

  /** Processes the batch that follows `done` in the walk that began at `db`. */
  method Flush(index: Index, disk: Disk, batch: seq<Path>, incremental: bool, before: ScanResult,
               ghost db: Db, ghost done: seq<Path>)
    returns (result: ScanResult)
    requires Walk(index.nm, db, disk, done, incremental) == Pass(index.Rows(), before)
    modifies index`artists, index`albums, index`tracks, index`files
    ensures Walk(index.nm, db, disk, done + batch, incremental) == Pass(index.Rows(), result)
  {
    result := before;
    assert done + batch[..0] == done;
    ghost var nm := index.nm;
    for i := 0 to |batch|
      invariant Walk(index.nm, db, disk, done + batch[..i], incremental) == Pass(index.Rows(), result)
    {
      assert done + batch[..i + 1] == (done + batch[..i]) + [batch[i]];
      WalkSnoc(nm, db, disk, done + batch[..i], batch[i], incremental);
      var status, _ := index.ProcessFile(disk, batch[i], incremental);
      result := result.Count(status);
    }
    assert batch[..|batch|] == batch;
  }

  function SeenOf(paths: seq<Path>): set<Path> {
    set p | p in paths
  }

  lemma TakeOne(paths: seq<Path>, i: nat, done: seq<Path>, batch: seq<Path>)
    requires i < |paths| && done + batch == paths[..i]
    ensures done + (batch + [paths[i]]) == paths[..i + 1]
    ensures SeenOf(paths[..i]) + {paths[i]} == SeenOf(paths[..i + 1])
  {
    assert paths[..i + 1] == paths[..i] + [paths[i]];
    assert done + (batch + [paths[i]]) == (done + batch) + [paths[i]];
  }

  /** The walk in batches; a batch is flushed once it reaches `batchSize`. */
  method WalkInBatches(index: Index, disk: Disk, paths: seq<Path>, incremental: bool, batchSize: int)
    returns (result: ScanResult, seen: set<Path>)
    modifies index`artists, index`albums, index`tracks, index`files
    ensures Pass(index.Rows(), result) == Walk(index.nm, old(index.Rows()), disk, paths, incremental)
    ensures seen == SeenOf(paths)
  {
    ghost var start, done := index.Rows(), [];
    result, seen := NOTHING, {};
    var batch: seq<Path> := [];
    for i := 0 to |paths|
      invariant done + batch == paths[..i] && seen == SeenOf(paths[..i])
      invariant Walk(index.nm, start, disk, done, incremental) == Pass(index.Rows(), result)
    {
      TakeOne(paths, i, done, batch);
      seen := seen + {paths[i]};
      batch := batch + [paths[i]];
      if |batch| >= batchSize {
        result := Flush(index, disk, batch, incremental, result, start, done);
        done, batch := done + batch, [];
      }
    }
    assert paths[..|paths|] == paths;
    if batch != [] {
      result := Flush(index, disk, batch, incremental, result, start, done);
    } else {
      assert done + batch == done;
    }
  }

  /** Removes the rows of files that are gone. */
  method RemoveRows(index: Index, gone: set<Path>)
    returns (removed: nat)
    modifies index`files
    ensures index.files == old(index.files) - gone && removed == |gone|
  {
    removed := 0;
    var todo := gone;
    while todo != {}
      invariant todo <= gone && removed + |todo| == |gone|
      invariant index.files == old(index.files) - (gone - todo)
      decreases todo
    {
      var p :| p in todo;
      todo := todo - {p};
      index.files := index.files - {p};
      removed := removed + 1;
    }
    assert gone - todo == gone;
  }

  /** Removes tracks without a file and, only if there were any, the albums and
      artists that no track is left to hold. */
  method Cascade(index: Index)
    modifies index`artists, index`albums, index`tracks
    ensures index.Rows() == Swept(old(index.Rows()), {})
  {
    assert index.files - {} == index.files;
    var orphans := index.tracks.Keys - LiveTracks(index.files);
    if orphans != {} {
      index.tracks := index.tracks - orphans;
      index.albums := KeepAlbums(index.albums, LiveAlbums(index.tracks));
      index.artists := KeepArtists(index.artists, LiveArtists(index.tracks));
    }
  }

  lemma SweptInTwo(db: Db, gone: set<Path>)
    ensures Swept(db.(files := db.files - gone), {}) == Swept(db, gone)
  {
    assert db.files - gone - {} == db.files - gone;
  }

  /** Whatever the batch size, the scan is the plain walk followed by the sweep. */
  method Scan(index: Index, disk: Disk, paths: seq<Path>, incremental: bool, batchSize: int)
    returns (result: ScanResult)
    modifies index`artists, index`albums, index`tracks, index`files
    ensures Pass(index.Rows(), result) == Scanned(index.nm, old(index.Rows()), disk, paths, incremental)
  {
    ghost var start := index.Rows();
    var known := if incremental then {} else index.files.Keys;
    var seen;
    result, seen := WalkInBatches(index, disk, paths, incremental, batchSize);
    if !incremental {
      SweptInTwo(index.Rows(), known - seen);
      WalkCounts(index.nm, start, disk, paths, incremental);
      var removed := RemoveRows(index, known - seen);
      result := result.(removed := result.removed + removed);
      Cascade(index);
    }
  }

  /** The walk counts every file exactly once and removes nothing. */
  lemma {:induction false} WalkCounts(nm: Naming, db: Db, disk: Disk, paths: seq<Path>, incremental: bool)
    ensures var result := Walk(nm, db, disk, paths, incremental).result;
            result.Seen() == |paths| && result.removed == 0
  {
    if paths != [] {
      var done := Walk(nm, db, disk, paths[..|paths| - 1], incremental);
      WalkCounts(nm, db, disk, paths[..|paths| - 1], incremental);
      CountAddsOne(done.result, ProcessStatus(nm, done.db, disk, paths[|paths| - 1], incremental));
    }
  }

  lemma CountAddsOne(result: ScanResult, status: Status)
    ensures result.Count(status).Seen() == result.Seen() + 1 && result.Count(status).removed == result.removed
  {
  }

  // ---- What a scan guarantees ----

  lemma RemovedIsNotSeen(result: ScanResult, n: nat)
    ensures result.(removed := n).Seen() == result.Seen()
  {
  }

  /** added + updated + skipped + errors is the number of files, and removed
      the number of rows whose file was not seen. */
  lemma EveryFileIsCounted(nm: Naming, db: Db, disk: Disk, paths: seq<Path>, incremental: bool)
    ensures var result := Scanned(nm, db, disk, paths, incremental).result;
            && result.Seen() == |paths|
            && result.removed == if incremental then 0 else |Gone(db, paths)|
  {
    WalkCounts(nm, db, disk, paths, incremental);
    RemovedIsNotSeen(Walk(nm, db, disk, paths, incremental).result, |Gone(db, paths)|);
  }

  lemma {:induction false} WalkKeepsRefs(nm: Naming, db: Db, disk: Disk, paths: seq<Path>, incremental: bool)
    requires Refs(db)
    ensures Refs(Walk(nm, db, disk, paths, incremental).db)
  {
    if paths != [] {
      var before := paths[..|paths| - 1];
      WalkKeepsRefs(nm, db, disk, before, incremental);
      ProcessedKeepsRefs(nm, Walk(nm, db, disk, before, incremental).db, disk, paths[|paths| - 1], incremental);
    }
  }

  lemma {:induction false} KeptAlbums(albums: seq<AlbumRow>, live: set<AlbumId>)
    ensures forall a :: a in KeepAlbums(albums, live) <==> a in albums && a.id in live
  {
    if albums != [] {
      KeptAlbums(albums[1..], live);
      assert forall a :: a in albums <==> a == albums[0] || a in albums[1..];
    }
  }

  lemma {:induction false} KeptAlbumsUnique(albums: seq<AlbumRow>, live: set<AlbumId>)
    requires UniqueAlbums(albums)
    ensures UniqueAlbums(KeepAlbums(albums, live))
  {
    if albums != [] {
      var rest, kept := albums[1..], KeepAlbums(albums[1..], live);
      assert forall i :: 0 <= i < |rest| ==> rest[i] == albums[i + 1];
      KeptAlbumsUnique(rest, live);
      KeptAlbums(rest, live);
      forall j | 0 <= j < |kept| ensures kept[j].id != albums[0].id {
        assert kept[j] in rest;
      }
    }
  }

  lemma KeepAlbumsKeeps(albums: seq<AlbumRow>, live: set<AlbumId>)
    requires UniqueAlbums(albums)
    ensures UniqueAlbums(KeepAlbums(albums, live))
    ensures forall a :: a in KeepAlbums(albums, live) <==> a in albums && a.id in live
    ensures forall id :: HasAlbum(KeepAlbums(albums, live), id) <==> id in live && HasAlbum(albums, id)
  {
    KeptAlbumsUnique(albums, live);
    KeptAlbums(albums, live);
    var kept := KeepAlbums(albums, live);
    forall id ensures HasAlbum(kept, id) <==> id in live && HasAlbum(albums, id) {
      if HasAlbum(kept, id) {
        var i :| 0 <= i < |kept| && kept[i].id == id;
        assert kept[i] in albums;
      }
      if id in live && HasAlbum(albums, id) {
        var i :| 0 <= i < |albums| && albums[i].id == id;
        assert albums[i] in kept;
      }
    }
  }

  lemma SweptTracksResolve(db: Db, gone: set<Path>)
    requires Refs(db)
    ensures var after := Swept(db, gone);
            && (forall p :: p in after.files ==> after.files[p].track in after.tracks)
            && (forall t :: t in after.tracks ==> after.tracks[t].artist in after.artists)
  {
    var after := Swept(db, gone);
    forall p | p in after.files ensures after.files[p].track in after.tracks {
      assert after.files[p].track in LiveTracks(after.files);
    }
    forall t | t in after.tracks ensures after.tracks[t].artist in after.artists {
      assert after.tracks[t].artist in LiveArtists(after.tracks);
    }
  }

  lemma SweptAlbumsResolve(db: Db, gone: set<Path>)
    requires Refs(db)
    ensures var after := Swept(db, gone);
            && UniqueAlbums(after.albums)
            && forall t :: t in after.tracks && after.tracks[t].album.Some? ==>
                 HasAlbum(after.albums, after.tracks[t].album.value)
  {
    var after := Swept(db, gone);
    KeepAlbumsKeeps(db.albums, LiveAlbums(after.tracks));
    forall t | t in after.tracks && after.tracks[t].album.Some?
      ensures after.tracks[t].album.value in LiveAlbums(after.tracks)
    {
    }
  }

  lemma SweepKeepsRefs(db: Db, gone: set<Path>)
    requires Refs(db)
    ensures Refs(Swept(db, gone))
  {
    SweptTracksResolve(db, gone);
    SweptAlbumsResolve(db, gone);
  }

  /** Every scan keeps file → track, track → album and track → artist valid. */
  lemma ScanKeepsRefs(nm: Naming, db: Db, disk: Disk, paths: seq<Path>, incremental: bool)
    requires Refs(db)
    ensures Refs(Scanned(nm, db, disk, paths, incremental).db)
  {
    WalkKeepsRefs(nm, db, disk, paths, incremental);
    SweepKeepsRefs(Walk(nm, db, disk, paths, incremental).db, Gone(db, paths));
  }

  lemma {:induction false} WalkAddsOnlySeen(nm: Naming, db: Db, disk: Disk, paths: seq<Path>, incremental: bool)
    ensures forall p :: p in Walk(nm, db, disk, paths, incremental).db.files ==> p in db.files || p in paths
  {
    if paths != [] {
      WalkAddsOnlySeen(nm, db, disk, paths[..|paths| - 1], incremental);
    }
  }

  /** After a full scan every file row was seen on disk, every track has a file
      row, and conversely no row of a file that was seen is lost to the sweep. */
  lemma FullScanLeavesNoGhosts(nm: Naming, db: Db, disk: Disk, paths: seq<Path>)
    requires Refs(db)
    ensures var walked, after := Walk(nm, db, disk, paths, false).db, Scanned(nm, db, disk, paths, false).db;
            && (forall p :: p in after.files <==> p in walked.files && p in paths)
            && (forall t :: t in after.tracks <==> exists p :: p in after.files && after.files[p].track == t)
  {
    WalkAddsOnlySeen(nm, db, disk, paths, false);
    ScanKeepsRefs(nm, db, disk, paths, false);
    var after := Scanned(nm, db, disk, paths, false).db;
    forall t | t in after.tracks ensures exists p :: p in after.files && after.files[p].track == t {
      assert t in LiveTracks(after.files);
    }
  }

  // ---- Which files come in ----

  lemma OthersComeNotIn(nm: Naming, db: Db, disk: Disk, path: Path, incremental: bool, q: Path)
    requires q != path
    ensures var after := Processed(nm, db, disk, path, incremental);
            && after.tombstones == db.tombstones
            && (q in after.files ==> q in db.files) && (q in db.files && q in disk ==> q in after.files)
  {
  }

  lemma {:induction false} WalkedInIff(nm: Naming, db: Db, disk: Disk, paths: seq<Path>, incremental: bool, p: Path)
    requires p !in db.files
    ensures var after := Walk(nm, db, disk, paths, incremental).db;
            && after.tombstones == db.tombstones
            && (p in after.files <==> p in paths && p in disk && disk[p].tags.Some? && !Barred(db, disk[p]))
  {
    if paths != [] {
      var front, last := paths[..|paths| - 1], paths[|paths| - 1];
      var before := Walk(nm, db, disk, front, incremental).db;
      WalkedInIff(nm, db, disk, front, incremental, p);
      assert p in paths <==> p in front || p == last;
      if p != last {
        OthersComeNotIn(nm, before, disk, last, incremental, p);
      } else if p !in before.files {
        NewFileGetsInIff(nm, before, disk, last, incremental);
      } else {
        StaysIn(nm, before, disk, last, incremental);
      }
    }
  }

  lemma StaysIn(nm: Naming, db: Db, disk: Disk, path: Path, incremental: bool)
    requires path in db.files
    ensures path in Processed(nm, db, disk, path, incremental).files
    ensures Processed(nm, db, disk, path, incremental).tombstones == db.tombstones
  {
  }

  /** A scan brings in exactly the files walked that can be read and whose
      recording is not barred by a tombstone: what the user has deleted for good
      does not come back. */
  lemma ScanBringsInIff(nm: Naming, db: Db, disk: Disk, paths: seq<Path>, incremental: bool, p: Path)
    requires p !in db.files
    ensures p in Scanned(nm, db, disk, paths, incremental).db.files <==>
      p in paths && p in disk && disk[p].tags.Some? && !Barred(db, disk[p])
  {
    WalkedInIff(nm, db, disk, paths, incremental, p);
  }

  // ---- The second pass ----

  /** An incremental pass would leave this file's rows alone. */
  predicate Settled(db: Db, disk: Disk, path: Path) {
    !Admitted(db, disk, path, true)
  }

  lemma ProcessingSettles(nm: Naming, db: Db, disk: Disk, path: Path, incremental: bool)
    ensures var after := Processed(nm, db, disk, path, incremental);
            && after.tombstones == db.tombstones
            && Settled(after, disk, path)
            && forall q :: Settled(db, disk, q) ==> Settled(after, disk, q)
  {
  }

  lemma {:induction false} WalkSettles(nm: Naming, db: Db, disk: Disk, paths: seq<Path>, incremental: bool)
    ensures var after := Walk(nm, db, disk, paths, incremental).db;
            && forall p :: p in paths || Settled(db, disk, p) ==> Settled(after, disk, p)
  {
    if paths != [] {
      var before, p := paths[..|paths| - 1], paths[|paths| - 1];
      WalkSettles(nm, db, disk, before, incremental);
      ProcessingSettles(nm, Walk(nm, db, disk, before, incremental).db, disk, p, incremental);
      assert forall q :: q in paths ==> q in before || q == p;
    }
  }

  lemma {:induction false} SettledWalkIsIdle(nm: Naming, db: Db, disk: Disk, paths: seq<Path>)
    requires forall p :: p in paths ==> Settled(db, disk, p)
    ensures var pass := Walk(nm, db, disk, paths, true);
            pass.db == db && pass.result.added == pass.result.updated == 0
  {
    if paths != [] {
      var p := paths[|paths| - 1];
      assert p in paths && forall q :: q in paths[..|paths| - 1] ==> q in paths;
      SettledWalkIsIdle(nm, db, disk, paths[..|paths| - 1]);
      assert Processed(nm, db, disk, p, true) == db;
    }
  }

  /** The sweep leaves the rows of files that were seen. */
  lemma SweptStaysSettled(db: Db, gone: set<Path>, disk: Disk, p: Path)
    requires Settled(db, disk, p) && p !in gone
    ensures Settled(Swept(db, gone), disk, p)
  {
  }

  lemma ScannedSettles(nm: Naming, db: Db, disk: Disk, paths: seq<Path>, incremental: bool, p: Path)
    requires p in paths
    ensures Settled(Scanned(nm, db, disk, paths, incremental).db, disk, p)
  {
    WalkSettles(nm, db, disk, paths, incremental);
    SweptStaysSettled(Walk(nm, db, disk, paths, incremental).db, Gone(db, paths), disk, p);
  }

  /** After any scan, full or incremental, an incremental scan of an unchanged
      disk changes no row and adds or updates nothing. */
  lemma SecondScanIsFixpoint(nm: Naming, db: Db, disk: Disk, paths: seq<Path>, incremental: bool)
    ensures var first := Scanned(nm, db, disk, paths, incremental).db;
            var again := Scanned(nm, first, disk, paths, true);
            && again.db == first
            && again.result.added == again.result.updated == again.result.removed == 0
            && again.result.skipped + again.result.errors == |paths|
  {
    var first := Scanned(nm, db, disk, paths, incremental).db;
    forall p | p in paths ensures Settled(first, disk, p) { ScannedSettles(nm, db, disk, paths, incremental, p); }
    SettledWalkIsIdle(nm, first, disk, paths);
    EveryFileIsCounted(nm, first, disk, paths, true);
  }

  // ---- What it does not guarantee ----

  ghost predicate AlbumArtistsResolve(db: Db) {
    forall a :: a in db.albums ==> a.artist in db.artists
  }

  /** The cascade deletes an artist without tracks even while an album names it:
      the reference album → artist survives exactly when nothing was swept, or
      every surviving album's artist still has a track. */
  lemma SweepKeepsAlbumArtistsIff(db: Db, gone: set<Path>)
    requires Refs(db) && AlbumArtistsResolve(db)
    ensures var files := db.files - gone;
            var tracks := db.tracks - (db.tracks.Keys - LiveTracks(files));
            AlbumArtistsResolve(Swept(db, gone)) <==>
              || tracks == db.tracks
              || forall a :: a in db.albums && a.id in LiveAlbums(tracks) ==> a.artist in LiveArtists(tracks)
  {
    var files := db.files - gone;
    var orphans := db.tracks.Keys - LiveTracks(files);
    var tracks := db.tracks - orphans;
    assert tracks == db.tracks <==> orphans == {} by {
      if orphans != {} {
        var t :| t in orphans;
        assert t in db.tracks && t !in tracks;
      }
    }
    KeepAlbumsKeeps(db.albums, LiveAlbums(tracks));
  }
}
