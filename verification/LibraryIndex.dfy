/** The library index: artist, album, track and file rows, and the upserts that
    bring one audio file into them. Row identities are keys over normalised
    names; the normalisers themselves are parameters. */
module LibraryIndex {
  import opened Prelude

  type Path = seq<string>

  type ArtistId = string

  datatype AlbumId = AlbumId(artist: ArtistId, title: string, year: Option<int>)

  datatype TrackId = TrackId(artist: string, title: string, bucket: Option<int>)

  function ArtistKey(nm: Naming, name: string): ArtistId {
    nm.norm(name)
  }

  /** A year of 0 is falsy and leaves the key's year part empty. */
  function AlbumKey(nm: Naming, artist: string, title: string, year: Option<int>): AlbumId {
    AlbumId(nm.norm(artist), nm.norm(title), if year == Some(0) then None else year)
  }

  /** Python rounds halves to the even multiple. */
  function Bucket(seconds: int): int {
    if seconds % 2 == 0 then seconds
    else if (seconds - 1) % 4 == 0 then seconds - 1
    else seconds + 1
  }

  function TrackKey(nm: Naming, artist: string, title: string, duration: Option<int>): TrackId {
    TrackId(nm.norm(artist), nm.norm(title),
            if duration.Some? then Some(Bucket(duration.value)) else None)
  }

  /** What a file's tags say; an empty tag reads back as None. */
  datatype Tags = Tags(
    title: Option<string>, artist: Option<string>, albumArtist: Option<string>,
    album: Option<string>, year: Option<int>, number: Option<int>, disc: Option<int>,
    genre: Option<string>, artistSort: Option<string>, artistMbid: Option<string>,
    recording: Option<string>, release: Option<string>,
    duration: Option<int>, codec: string, cover: bool)

  /** A file on disk; `tags` is None when it cannot be read. */
  datatype OnDisk = OnDisk(mtime: int, tags: Option<Tags>, sidecarCover: bool)

  type Disk = map<Path, OnDisk>

  datatype ArtistRow = ArtistRow(name: string, sort: Option<string>, mbid: Option<string>)

  datatype AlbumRow = AlbumRow(
    id: AlbumId, title: string, year: Option<int>, artist: ArtistId,
    group: Option<string>, release: Option<string>)

  datatype TrackRow = TrackRow(
    title: string, artist: ArtistId, album: Option<AlbumId>, credit: Option<string>,
    duration: Option<int>, number: Option<int>, disc: Option<int>,
    genre: Option<string>, recording: Option<string>)

  datatype FileRow = FileRow(track: TrackId, mtime: int, codec: string, cover: bool)

  /** The database. Albums stand in creation order; `tombstones` says for each
      deleted recording whether re-import is prevented. */
  datatype Db = Db(
    artists: map<ArtistId, ArtistRow>, albums: seq<AlbumRow>, tracks: map<TrackId, TrackRow>,
    files: map<Path, FileRow>, tombstones: map<string, bool>)

  datatype Status = Added | Updated | Skipped | Error

  /** Position of the album row with this id, or |albums|. */
  function Find(albums: seq<AlbumRow>, id: AlbumId): (i: nat)
    ensures i <= |albums|
    ensures i < |albums| ==> albums[i].id == id
    ensures forall j :: 0 <= j < i ==> albums[j].id != id
  {
    if albums == [] then 0
    else if albums[0].id == id then 0
    else 1 + Find(albums[1..], id)
  }

  predicate HasAlbum(albums: seq<AlbumRow>, id: AlbumId) {
    exists i :: 0 <= i < |albums| && albums[i].id == id
  }

  // ---- Upserts ----

  function WithArtist(nm: Naming, artists: map<ArtistId, ArtistRow>, name: string,
                      sort: Option<string>, mbid: Option<string>): map<ArtistId, ArtistRow>
  {
    var id := ArtistKey(nm, name);
    if id !in artists then artists[id := ArtistRow(name, sort, mbid)]
    else artists[id := artists[id].(sort := artists[id].sort.Or(sort), mbid := artists[id].mbid.Or(mbid))]
  }

  function WithAlbum(nm: Naming, albums: seq<AlbumRow>, artistId: ArtistId, title: string, year: Option<int>,
                     artistName: string, group: Option<string>, release: Option<string>): seq<AlbumRow>
  {
    var id := AlbumKey(nm, artistName, title, year);
    var i := Find(albums, id);
    if i == |albums| then albums + [AlbumRow(id, title, year, artistId, group, release)]
    else albums[i := albums[i].(group := albums[i].group.Or(group), release := albums[i].release.Or(release))]
  }

  /** Other rows of this track whose file is gone from disk are dropped. */
  function WithoutStale(files: map<Path, FileRow>, track: TrackId, keep: Path, disk: Disk): map<Path, FileRow> {
    map p | p in files && !(files[p].track == track && p != keep && p !in disk) :: files[p]
  }

  /** An existing row keeps its track, whatever the tags now say. */
  function WithFile(files: map<Path, FileRow>, path: Path, scanned: FileRow, disk: Disk): map<Path, FileRow> {
    if path in files then
      if files[path].mtime == scanned.mtime then files
      else files[path := scanned.(track := files[path].track)]
    else WithoutStale(files[path := scanned], scanned.track, path, disk)
  }

  function NamedArtist(tags: Tags): string {
    tags.albumArtist.Or(tags.artist).GetOr("Unknown Artist")
  }

  /** An untitled file is named after its file name's stem. */
  function NamedTitle(nm: Naming, tags: Tags, path: Path): string {
    tags.title.GetOr(if path == [] then "" else nm.stem(path[|path| - 1]))
  }

  function TaggedTrack(nm: Naming, tags: Tags, path: Path): TrackId {
    TrackKey(nm, tags.artist.GetOr(NamedArtist(tags)), NamedTitle(nm, tags, path), tags.duration)
  }

  function TaggedAlbum(nm: Naming, tags: Tags): Option<AlbumId> {
    if tags.album.None? then None
    else Some(AlbumKey(nm, NamedArtist(tags), tags.album.value, tags.year))
  }

  function TrackFrom(nm: Naming, tags: Tags, path: Path, known: Option<TrackRow>): TrackRow {
    match known
    case None =>
      TrackRow(NamedTitle(nm, tags, path), ArtistKey(nm, NamedArtist(tags)), TaggedAlbum(nm, tags), tags.artist,
               tags.duration, tags.number, tags.disc, tags.genre, tags.recording)
    case Some(row) =>
      row.(album := TaggedAlbum(nm, tags), credit := tags.artist, number := tags.number, disc := tags.disc,
           genre := tags.genre.Or(row.genre), recording := row.recording.Or(tags.recording))
  }

  /** The rows after a readable, admitted file is indexed. */
  function Indexed(nm: Naming, db: Db, disk: Disk, path: Path, file: OnDisk, tags: Tags): Db {
    var artist := NamedArtist(tags);
    var track := TaggedTrack(nm, tags, path);
    var row := TrackFrom(nm, tags, path, if track in db.tracks then Some(db.tracks[track]) else None);
    db.(artists := WithArtist(nm, db.artists, artist, tags.artistSort, tags.artistMbid),
        albums := if tags.album.None? then db.albums
                  else WithAlbum(nm, db.albums, ArtistKey(nm, artist), tags.album.value, tags.year, artist,
                                 None, tags.release),
        tracks := db.tracks[track := row],
        files := WithFile(db.files, path, FileRow(track, file.mtime, tags.codec, tags.cover || file.sidecarCover),
                          disk))
  }

  predicate UpToDate(db: Db, disk: Disk, path: Path) {
    path in disk && path in db.files && db.files[path].mtime == disk[path].mtime
  }

  predicate Blocked(db: Db, tags: Tags) {
    tags.recording.Some? && tags.recording.value in db.tombstones && db.tombstones[tags.recording.value]
  }

  /** Whether processing this file reaches the upserts at all. */
  predicate Admitted(db: Db, disk: Disk, path: Path, incremental: bool) {
    && path in disk
    && !(incremental && UpToDate(db, disk, path))
    && disk[path].tags.Some?
    && !Blocked(db, disk[path].tags.value)
  }

  function Processed(nm: Naming, db: Db, disk: Disk, path: Path, incremental: bool): Db {
    if Admitted(db, disk, path, incremental)
    then Indexed(nm, db, disk, path, disk[path], disk[path].tags.value)
    else db
  }

  function ProcessStatus(nm: Naming, db: Db, disk: Disk, path: Path, incremental: bool): Status {
    if path !in disk then Error
    else if incremental && UpToDate(db, disk, path) then Skipped
    else if disk[path].tags.None? then Error
    else if Blocked(db, disk[path].tags.value) then Skipped
    else if UpToDate(db, disk, path) then Skipped
    else if TaggedTrack(nm, disk[path].tags.value, path) in db.tracks then Updated
    else Added
  }

  /** The track id the indexing call reports, None when it indexed nothing. */
  function ProcessTrack(nm: Naming, db: Db, disk: Disk, path: Path, incremental: bool): Option<TrackId> {
    if path in disk && incremental && UpToDate(db, disk, path) then Some(db.files[path].track)
    else if Admitted(db, disk, path, incremental) then Some(TaggedTrack(nm, disk[path].tags.value, path))
    else None
  }

  // ---- Referential integrity ----

  ghost predicate UniqueAlbums(albums: seq<AlbumRow>) {
    forall i, j :: 0 <= i < j < |albums| ==> albums[i].id != albums[j].id
  }

  /** file → track, track → artist and track → album all resolve. */
  ghost predicate Refs(db: Db) {
    && (forall p :: p in db.files ==> db.files[p].track in db.tracks)
    && (forall t :: t in db.tracks ==> db.tracks[t].artist in db.artists)
    && (forall t :: t in db.tracks && db.tracks[t].album.Some? ==> HasAlbum(db.albums, db.tracks[t].album.value))
    && UniqueAlbums(db.albums)
  }

  lemma AlbumUpserted(nm: Naming, albums: seq<AlbumRow>, artistId: ArtistId, title: string, year: Option<int>,
                      artistName: string, group: Option<string>, release: Option<string>)
    requires UniqueAlbums(albums)
    ensures var after := WithAlbum(nm, albums, artistId, title, year, artistName, group, release);
            && UniqueAlbums(after)
            && HasAlbum(after, AlbumKey(nm, artistName, title, year))
            && forall id :: HasAlbum(albums, id) ==> HasAlbum(after, id)
  {
    var after := WithAlbum(nm, albums, artistId, title, year, artistName, group, release);
    var key := AlbumKey(nm, artistName, title, year);
    var i := Find(albums, key);
    assert after[i].id == key;
    assert forall j :: 0 <= j < |albums| ==> after[j].id == albums[j].id;
  }

  lemma FileRowsResolve(files: map<Path, FileRow>, path: Path, scanned: FileRow, disk: Disk, tracks: map<TrackId,
                        TrackRow>)
    requires scanned.track in tracks && forall p :: p in files ==> files[p].track in tracks
    ensures var after := WithFile(files, path, scanned, disk);
            forall p :: p in after ==> after[p].track in tracks
  {
  }

  lemma TrackRowsResolve(nm: Naming, db: Db, tags: Tags, path: Path, artists: map<ArtistId, ArtistRow>,
                         albums: seq<AlbumRow>, row: TrackRow)
    requires Refs(db) && ArtistKey(nm, NamedArtist(tags)) in artists && db.artists.Keys <= artists.Keys
    requires TaggedAlbum(nm, tags).Some? ==> HasAlbum(albums, TaggedAlbum(nm, tags).value)
    requires row == TrackFrom(nm, tags, path, None)
             || exists t :: t in db.tracks && row == TrackFrom(nm, tags, path, Some(db.tracks[t]))
    ensures row.artist in artists && (row.album.Some? ==> HasAlbum(albums, row.album.value))
  {
  }

  lemma IndexedKeepsRefs(nm: Naming, db: Db, disk: Disk, path: Path, file: OnDisk, tags: Tags)
    requires Refs(db)
    ensures Refs(Indexed(nm, db, disk, path, file, tags))
  {
    var after, track := Indexed(nm, db, disk, path, file, tags), TaggedTrack(nm, tags, path);
    if tags.album.Some? {
      AlbumUpserted(nm, db.albums, ArtistKey(nm, NamedArtist(tags)), tags.album.value, tags.year,
                    NamedArtist(tags), None, tags.release);
    }
    FileRowsResolve(db.files, path, FileRow(track, file.mtime, tags.codec, tags.cover || file.sidecarCover), disk,
                    after.tracks);
    TrackRowsResolve(nm, db, tags, path, after.artists, after.albums, after.tracks[track]);
  }

  lemma ProcessedKeepsRefs(nm: Naming, db: Db, disk: Disk, path: Path, incremental: bool)
    requires Refs(db)
    ensures Refs(Processed(nm, db, disk, path, incremental))
  {
    if Admitted(db, disk, path, incremental) {
      IndexedKeepsRefs(nm, db, disk, path, disk[path], disk[path].tags.value);
    }
  }

  // ---- Which files get in ----

  /** The user has deleted this recording and does not want it back. */
  predicate Barred(db: Db, file: OnDisk) {
    match file.tags
    case None => false
    case Some(tags) => exists rid :: rid in db.tombstones && db.tombstones[rid] && tags.recording == Some(rid)
  }

  /** A file whose recording is barred changes no row and is skipped; only if it
      is up to date does an incremental scan still report its track. */
  lemma BarredIsSkipped(nm: Naming, db: Db, disk: Disk, path: Path, incremental: bool)
    requires path in disk && Barred(db, disk[path])
    ensures Processed(nm, db, disk, path, incremental) == db
    ensures ProcessStatus(nm, db, disk, path, incremental) == Skipped
    ensures ProcessTrack(nm, db, disk, path, incremental)
            == if incremental && path in db.files && db.files[path].mtime == disk[path].mtime
               then Some(db.files[path].track) else None
  {
  }

  /** A file that has no row gets one exactly if it can be read and its recording
      is not barred, and then counts as new or not as its track is; a tombstone
      that does not prevent re-import does not count. */
  lemma NewFileGetsInIff(nm: Naming, db: Db, disk: Disk, path: Path, incremental: bool)
    requires path !in db.files
    ensures var after := Processed(nm, db, disk, path, incremental);
            && (path in after.files <==> path in disk && disk[path].tags.Some? && !Barred(db, disk[path]))
            && (path !in after.files ==> after == db && ProcessTrack(nm, db, disk, path, incremental) == None)
            && (path in after.files ==>
                  && after.files[path].mtime == disk[path].mtime
                  && after.files[path].track in after.tracks
                  && ProcessTrack(nm, db, disk, path, incremental) == Some(after.files[path].track)
                  && ProcessStatus(nm, db, disk, path, incremental)
                     == if after.files[path].track in db.tracks then Updated else Added)
  {
  }

  /** A known file is read again on a full scan, or when it has changed. */
  lemma KnownFileIsReadIff(nm: Naming, db: Db, disk: Disk, path: Path, incremental: bool)
    requires path in db.files && path in disk && disk[path].tags.Some? && !Barred(db, disk[path])
    ensures var after, same := Processed(nm, db, disk, path, incremental), db.files[path].mtime == disk[path].mtime;
            && path in after.files && after.files[path].track == db.files[path].track
            && after.files[path].mtime == disk[path].mtime
            && (same ==> ProcessStatus(nm, db, disk, path, incremental) == Skipped && after.files == db.files)
            && (same && incremental ==> after == db)
            && (!same ==> after.files[path].codec == disk[path].tags.value.codec)
            && (!same ==> ProcessStatus(nm, db, disk, path, incremental) in {Added, Updated})
  {
  }

  // ---- What makes two files one track ----

  /** A bucket is an even number of seconds at most one away; of two such it is
      the multiple of four. */
  lemma BucketIs(seconds: int, bucket: int)
    ensures bucket == Bucket(seconds) <==>
      bucket % 2 == 0 && -1 <= bucket - seconds <= 1 && (seconds % 2 == 1 ==> bucket % 4 == 0)
  {
    Quarters(seconds);
    Quarters(bucket);
  }

  lemma Mod2(n: int, q: int, r: int)
    requires n == 2 * q + r && 0 <= r < 2
    ensures n % 2 == r
  {
  }

  lemma Mod4(n: int, q: int, r: int)
    requires n == 4 * q + r && 0 <= r < 4
    ensures n % 4 == r
  {
  }

  /** Parity and divisibility by four, from quotient and remainder. */
  lemma Quarters(n: int)
    ensures var q, r := n / 4, n % 4;
            && n == 4 * q + r && 0 <= r < 4 && (n % 2 == 1 <==> r == 1 || r == 3) && ((n - 1) % 4 == 0 <==> r == 1)
  {
    var q, r := n / 4, n % 4;
    if r == 0 {
      Mod2(n, 2 * q, 0);
      Mod4(n - 1, q - 1, 3);
    } else if r == 1 {
      Mod2(n, 2 * q, 1);
      Mod4(n - 1, q, 0);
    } else if r == 2 {
      Mod2(n, 2 * q + 1, 0);
      Mod4(n - 1, q, 1);
    } else {
      Mod2(n, 2 * q + 1, 1);
      Mod4(n - 1, q, 2);
    }
  }

  /** At most a second from a multiple of four. */
  predicate Near(four: int, seconds: int) {
    four % 4 == 0 && -1 <= four - seconds <= 1
  }

  lemma FoursAreEven(n: int)
    requires n % 4 == 0
    ensures n % 2 == 0
  {
    assert n == 2 * (2 * (n / 4));
  }

  lemma NearIsBucket(four: int, seconds: int)
    ensures Near(four, seconds) <==> four % 4 == 0 && Bucket(seconds) == four
  {
    if four % 4 == 0 {
      FoursAreEven(four);
      BucketIs(seconds, four);
    }
  }

  lemma SameBucketIff(d: int, e: int)
    ensures Bucket(d) == Bucket(e) <==> d == e || exists four :: Near(four, d) && Near(four, e)
  {
    var b := Bucket(d);
    Quarters(d);
    Quarters(e);
    if b == Bucket(e) && d != e {
      assert b % 4 == 0 by { Quarters(b); }
      NearIsBucket(b, d);
      NearIsBucket(b, e);
    }
    if four :| Near(four, d) && Near(four, e) {
      NearIsBucket(four, d);
      NearIsBucket(four, e);
    }
  }

  /** Two recordings are one track exactly if artist and title agree in normal
      form and their lengths are equal, both unknown, or within a second of the
      same multiple of four. */
  lemma SameTrackIff(nm: Naming, a1: string, t1: string, d1: Option<int>, a2: string, t2: string, d2: Option<int>)
    ensures TrackKey(nm, a1, t1, d1) == TrackKey(nm, a2, t2, d2) <==>
      && nm.norm(a1) == nm.norm(a2) && nm.norm(t1) == nm.norm(t2)
      && (d1 == d2 || (d1.Some? && d2.Some? && exists four :: Near(four, d1.value) && Near(four, d2.value)))
  {
    if d1.Some? && d2.Some? { SameBucketIff(d1.value, d2.value); }
  }

  // ---- The index as the scanner and the pipeline share it ----

  class Index {
    const nm: Naming
    var artists: map<ArtistId, ArtistRow>
    var albums: seq<AlbumRow>
    var tracks: map<TrackId, TrackRow>
    var files: map<Path, FileRow>
    var tombstones: map<string, bool>

    function Rows(): Db
      reads this
    {
      Db(artists, albums, tracks, files, tombstones)
    }

    constructor (nm: Naming)
      ensures this.nm == nm && Rows() == Db(map[], [], map[], map[], map[])
    {
      this.nm := nm;
      artists, albums, tracks, files, tombstones := map[], [], map[], map[], map[];
    }

    method UpsertArtist(name: string, sort: Option<string>, mbid: Option<string>) returns (id: ArtistId)
      modifies this`artists
      ensures id == ArtistKey(nm, name)
      ensures artists == WithArtist(nm, old(artists), name, sort, mbid)
    {
      id := ArtistKey(nm, name);
      if id !in artists {
        artists := artists[id := ArtistRow(name, sort, mbid)];
        return;
      }
      var row := artists[id];
      if sort.Some? && row.sort.None? { row := row.(sort := sort); }
      if mbid.Some? && row.mbid.None? { row := row.(mbid := mbid); }
      artists := artists[id := row];
    }

    method UpsertAlbum(artistId: ArtistId, title: string, year: Option<int>, artistName: string,
                       group: Option<string>, release: Option<string>) returns (id: AlbumId)
      modifies this`albums
      ensures id == AlbumKey(nm, artistName, title, year)
      ensures albums == WithAlbum(nm, old(albums), artistId, title, year, artistName, group, release)
    {
      id := AlbumKey(nm, artistName, title, year);
      var i := Find(albums, id);
      if i == |albums| {
        albums := albums + [AlbumRow(id, title, year, artistId, group, release)];
        return;
      }
      var row := albums[i];
      if group.Some? && row.group.None? { row := row.(group := group); }
      if release.Some? && row.release.None? { row := row.(release := release); }
      albums := albums[i := row];
    }

    method DropStaleFiles(track: TrackId, keep: Path, disk: Disk)
      modifies this`files
      ensures files == WithoutStale(old(files), track, keep, disk)
    {
      var todo := set p | p in files && files[p].track == track && p != keep;
      while todo != {}
        invariant todo <= old(files.Keys)
        invariant forall p :: p in todo ==> old(files)[p].track == track && p != keep
        invariant files == map p | p in old(files) &&
                    !(old(files)[p].track == track && p != keep && p !in todo && p !in disk) :: old(files)[p]
        decreases todo
      {
        var p :| p in todo;
        todo := todo - {p};
        if p !in disk {
          files := files - {p};
        }
      }
    }

    method UpsertTrackFile(path: Path, scanned: FileRow, disk: Disk) returns (changed: bool)
      modifies this`files
      ensures files == WithFile(old(files), path, scanned, disk)
      ensures changed <==> !(path in old(files) && old(files)[path].mtime == scanned.mtime)
    {
      if path in files {
        var row := files[path];
        if row.mtime == scanned.mtime { return false; }
        files := files[path := row.(codec := scanned.codec, cover := scanned.cover, mtime := scanned.mtime)];
        return true;
      }
      files := files[path := scanned];
      DropStaleFiles(scanned.track, path, disk);
      return true;
    }

    method UpsertTrack(path: Path, tags: Tags, artistId: ArtistId, albumId: Option<AlbumId>)
      returns (trackId: TrackId, isNew: bool)
      requires artistId == ArtistKey(nm, NamedArtist(tags)) && albumId == TaggedAlbum(nm, tags)
      modifies this`tracks
      ensures trackId == TaggedTrack(nm, tags, path) && isNew == (trackId !in old(tracks))
      ensures tracks == old(tracks)[trackId := TrackFrom(nm, tags, path,
                                                         if isNew then None else Some(old(tracks)[trackId]))]
    {
      var title := NamedTitle(nm, tags, path);
      trackId := TrackKey(nm, tags.artist.GetOr(NamedArtist(tags)), title, tags.duration);
      isNew := trackId !in tracks;
      if isNew {
        tracks := tracks[trackId := TrackRow(title, artistId, albumId, tags.artist, tags.duration,
                                             tags.number, tags.disc, tags.genre, tags.recording)];
      } else {
        var row := tracks[trackId].(album := albumId, credit := tags.artist, number := tags.number, disc := tags.disc);
        if tags.genre.Some? { row := row.(genre := tags.genre); }
        if tags.recording.Some? && row.recording.None? { row := row.(recording := tags.recording); }
        tracks := tracks[trackId := row];
      }
    }

    /** The upserts for a file that was admitted, in the scanner's order. */
    method IndexTags(disk: Disk, path: Path, file: OnDisk, tags: Tags)
      returns (track: TrackId, isNew: bool, changed: bool)
      modifies this`artists, this`albums, this`tracks, this`files
      ensures Rows() == Indexed(nm, old(Rows()), disk, path, file, tags)
      ensures track == TaggedTrack(nm, tags, path) && isNew == (track !in old(tracks))
      ensures changed <==> !(path in old(files) && old(files)[path].mtime == file.mtime)
    {
      var cover := tags.cover;
      if !cover && file.sidecarCover { cover := true; }
      var artistId := UpsertArtist(NamedArtist(tags), tags.artistSort, tags.artistMbid);
      var albumId: Option<AlbumId> := None;
      if tags.album.Some? {
        var id := UpsertAlbum(artistId, tags.album.value, tags.year, NamedArtist(tags), None, tags.release);
        albumId := Some(id);
      }
      track, isNew := UpsertTrack(path, tags, artistId, albumId);
      changed := UpsertTrackFile(path, FileRow(track, file.mtime, tags.codec, cover), disk);
    }

    /** One audio file into the index. */
    method ProcessFile(disk: Disk, path: Path, incremental: bool) returns (status: Status, track: Option<TrackId>)
      modifies this`artists, this`albums, this`tracks, this`files
      ensures Rows() == Processed(nm, old(Rows()), disk, path, incremental)
      ensures status == ProcessStatus(nm, old(Rows()), disk, path, incremental)
      ensures track == ProcessTrack(nm, old(Rows()), disk, path, incremental)
    {
      if path !in disk { return Error, None; }
      var file := disk[path];
      if incremental && path in files && files[path].mtime == file.mtime {
        return Skipped, Some(files[path].track);
      }
      if file.tags.None? { return Error, None; }
      var tags := file.tags.value;
      if tags.recording.Some? && tags.recording.value in tombstones && tombstones[tags.recording.value] {
        return Skipped, None;
      }
      var id, isNew, changed := IndexTags(disk, path, file, tags);
      status := if !changed then Skipped else if isNew then Added else Updated;
      track := Some(id);
    }
  }
}
