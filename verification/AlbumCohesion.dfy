/** Approving a reviewed track: anchor it to an existing album, write its tags,
    place the file, index it, and pull its siblings' release id into line.

    The row a track lands in is never chosen directly: it is recomputed from the
    tags by the index. That albums do not fragment is therefore a property of
    whole runs of approvals. */
module AlbumCohesion {
  import opened Prelude
  import opened LibraryIndex

  /** The database and the audio files under the music root. */
  datatype Library = Library(db: Db, disk: Disk)

  /** One approval: the reviewed metadata, the staged file's own tags, and the
      parts of the destination path that cohesion does not decide. `stable` is
      the artist row that the lookup by `artistMbid` returned, if any. */
  datatype Approval = Approval(
    title: string, artist: string, albumArtist: string, album: Option<string>, year: Option<int>,
    number: Option<int>, disc: Option<int>, genre: Option<string>, artistSort: Option<string>,
    recording: Option<string>, release: Option<string>, group: Option<string>, artistMbid: Option<string>,
    duration: Option<int>, raw: Tags, layout: (string, Option<string>, Option<int>) -> Path,
    stable: Option<ArtistId>, now: int)

  /** What cohesion settled on. `found` is the position of the album row the
      track was anchored to, or the number of rows when there is none. */
  datatype Anchor = Anchor(album: Option<string>, albumArtist: string, year: Option<int>,
                           release: Option<string>, found: nat)

  // ---- Finding the canonical album ----

  /** Oldest album of this release group whose artist row exists. */
  function ByGroup(albums: seq<AlbumRow>, artists: map<ArtistId, ArtistRow>, group: string): (i: nat)
    ensures i <= |albums|
    ensures i < |albums| ==> albums[i].group == Some(group) && albums[i].artist in artists
    ensures forall j :: 0 <= j < i ==> !(albums[j].group == Some(group) && albums[j].artist in artists)
  {
    if albums == [] then 0
    else if albums[0].group == Some(group) && albums[0].artist in artists then 0
    else 1 + ByGroup(albums[1..], artists, group)
  }

  predicate SameTitle(nm: Naming, a: AlbumRow, artist: ArtistId, title: string, dated: bool) {
    a.artist == artist && a.year.Some? == dated && nm.grouping(a.title) == nm.grouping(title)
  }

  function FirstSameTitle(nm: Naming, albums: seq<AlbumRow>, artist: ArtistId, title: string, dated: bool): (i: nat)
    ensures i <= |albums|
    ensures i < |albums| ==> SameTitle(nm, albums[i], artist, title, dated)
    ensures forall j :: 0 <= j < i ==> !SameTitle(nm, albums[j], artist, title, dated)
  {
    if albums == [] then 0
    else if SameTitle(nm, albums[0], artist, title, dated) then 0
    else 1 + FirstSameTitle(nm, albums[1..], artist, title, dated)
  }

  /** Albums that carry a year are preferred. */
  function ByTitle(nm: Naming, albums: seq<AlbumRow>, artist: ArtistId, title: string): (i: nat)
    ensures i <= |albums|
  {
    var dated := FirstSameTitle(nm, albums, artist, title, true);
    if dated < |albums| then dated else FirstSameTitle(nm, albums, artist, title, false)
  }

  /** The lookup by MusicBrainz artist id returns some row carrying it. */
  predicate StableOk(db: Db, a: Approval) {
    match a.stable
    case Some(k) => k in db.artists && a.artistMbid.Some? && db.artists[k].mbid == a.artistMbid
    case None => a.artistMbid.None? || forall k :: k in db.artists ==> db.artists[k].mbid != a.artistMbid
  }

  function StableArtist(db: Db, a: Approval): string
    requires StableOk(db, a)
  {
    if a.stable.Some? then db.artists[a.stable.value].name else a.albumArtist
  }

  /** The group an approval can be matched by. */
  function GroupHit(db: Db, a: Approval): (i: nat)
    ensures i <= |db.albums|
  {
    if a.group.None? then |db.albums| else ByGroup(db.albums, db.artists, a.group.value)
  }

  function Anchored(nm: Naming, db: Db, a: Approval): Anchor
    requires StableOk(db, a)
  {
    if a.album.None? then Anchor(None, a.albumArtist, a.year, a.release, |db.albums|)
    else
      var artist := StableArtist(db, a);
      var hit := GroupHit(db, a);
      if hit < |db.albums| then
        var row := db.albums[hit];
        assert a.group.Some?;
        Anchor(Some(row.title), db.artists[row.artist].name, row.year.Or(a.year), row.release, hit)
      else
        var same := ByTitle(nm, db.albums, ArtistKey(nm, artist), a.album.value);
        if same < |db.albums| then
          var row := db.albums[same];
          Anchor(Some(row.title), artist, row.year.Or(a.year), row.release, same)
        else Anchor(a.album, artist, a.year, a.release, |db.albums|)
  }

  // ---- Tagging, placing, indexing ----

  /** Writing tags leaves alone every field that is not given. */
  function Written(a: Approval, to: Anchor): Tags {
    a.raw.(title := Some(a.title), artist := Some(a.artist), albumArtist := Some(to.albumArtist),
           album := to.album.Or(a.raw.album), year := to.year.Or(a.raw.year),
           number := a.number.Or(a.raw.number), disc := a.disc.Or(a.raw.disc),
           genre := a.genre.Or(a.raw.genre), artistSort := a.artistSort.Or(a.raw.artistSort),
           artistMbid := a.artistMbid.Or(a.raw.artistMbid),
           recording := a.recording.Or(a.raw.recording), release := to.release.Or(a.raw.release))
  }

  function Dest(a: Approval, to: Anchor): Path {
    a.layout(to.albumArtist, to.album, to.year)
  }

  /** A file already at the destination stays; the staged one is not placed. */
  function Placed(disk: Disk, a: Approval, to: Anchor): Disk {
    var dest := Dest(a, to);
    if dest in disk then disk else disk[dest := OnDisk(a.now, Some(Written(a, to)), false)]
  }

  /** The user's approval clears the recording's tombstone. */
  function Readmitted(db: Db, recording: Option<string>): Db {
    if recording.Some? then db.(tombstones := db.tombstones - {recording.value}) else db
  }

  function PlacedTrack(nm: Naming, db: Db, disk: Disk, a: Approval, dest: Path): TrackId {
    ProcessTrack(nm, db, disk, dest, false).GetOr(TrackKey(nm, a.artist, a.title, a.duration))
  }

  function WithIds(album: AlbumRow, group: Option<string>, release: Option<string>): AlbumRow {
    album.(group := album.group.Or(group), release := album.release.Or(release))
  }

  function WithMbid(artist: ArtistRow, mbid: Option<string>): ArtistRow {
    artist.(mbid := artist.mbid.Or(mbid))
  }

  /** The ids that only the pipeline knows, filled in where rows lack them. */
  function Backfilled(db: Db, track: TrackId, a: Approval, release: Option<string>): Db {
    if track !in db.tracks then db
    else
      var row := db.tracks[track];
      var wanted := row.album.Some? && (a.group.Some? || release.Some?);
      var i := if wanted then Find(db.albums, row.album.value) else |db.albums|;
      db.(tracks := db.tracks[track := row.(recording := a.recording.Or(row.recording),
                                            genre := a.genre.Or(row.genre))],
          artists := if a.artistMbid.Some? && row.artist in db.artists
                     then db.artists[row.artist := WithMbid(db.artists[row.artist], a.artistMbid)]
                     else db.artists,
          albums := if i == |db.albums| then db.albums
                    else db.albums[i := WithIds(db.albums[i], a.group, release)])
  }

  /** The release id siblings are brought to, if they are touched at all. */
  function Effective(db: Db, track: TrackId, a: Approval, release: Option<string>): Option<string> {
    if track !in db.tracks || db.tracks[track].album.None? || (a.group.None? && release.None?) then None
    else
      var i := Find(db.albums, db.tracks[track].album.value);
      if i == |db.albums| then None else release.Or(db.albums[i].release)
  }

  /** Files of the album's other tracks. */
  function Siblings(db: Db, track: TrackId): set<Path> {
    set p | p in db.files && db.files[p].track != track && track in db.tracks && db.files[p].track in db.tracks
            && db.tracks[track].album.Some? && db.tracks[db.files[p].track].album == db.tracks[track].album
  }

  function Retagged(file: OnDisk, release: string, now: int): OnDisk {
    if file.tags.None? || file.tags.value.release == Some(release) then file
    else file.(tags := Some(file.tags.value.(release := Some(release))), mtime := now)
  }

  function RetaggedAll(disk: Disk, paths: set<Path>, release: string, now: int): Disk {
    map p | p in disk :: if p in paths then Retagged(disk[p], release, now) else disk[p]
  }

  /** The library after one approval. */
  function Approved(nm: Naming, lib: Library, a: Approval): Library
    requires StableOk(lib.db, a)
  {
    var to := Anchored(nm, lib.db, a);
    var disk := Placed(lib.disk, a, to);
    var db := Readmitted(lib.db, a.recording);
    var track := PlacedTrack(nm, db, disk, a, Dest(a, to));
    var indexed := Backfilled(Processed(nm, db, disk, Dest(a, to), false), track, a, to.release);
    var effective := Effective(indexed, track, a, to.release);
    Library(indexed,
            if effective.None? then disk else RetaggedAll(disk, Siblings(indexed, track), effective.value, a.now))
  }

  class LibraryService {
    const index: Index
    var disk: Disk

    constructor (index: Index)
      ensures this.index == index && disk == map[]
    {
      this.index := index;
      disk := map[];
    }

    method RetagSiblings(track: TrackId, release: string, now: int)
      modifies this`disk
      ensures disk == RetaggedAll(old(disk), Siblings(index.Rows(), track), release, now)
    {
      var todo := Siblings(index.Rows(), track);
      ghost var all := todo;
      assert disk == RetaggedAll(disk, {}, release, now);
      while todo != {}
        invariant todo <= all
        invariant disk == RetaggedAll(old(disk), all - todo, release, now)
        decreases todo
      {
        var p :| p in todo;
        todo := todo - {p};
        if p in disk && disk[p].tags.Some? {
          var tags := disk[p].tags.value;
          if tags.release != Some(release) {
            disk := disk[p := disk[p].(tags := Some(tags.(release := Some(release))), mtime := now)];
          }
        }
      }
      assert all - todo == all;
    }

    method BackfillAlbum(id: AlbumId, group: Option<string>, release: Option<string>)
      modifies index`albums
      ensures var i := Find(old(index.albums), id);
              index.albums == if i == |old(index.albums)| then old(index.albums)
                              else old(index.albums)[i := WithIds(old(index.albums)[i], group, release)]
    {
      var i := Find(index.albums, id);
      if i < |index.albums| {
        var album := index.albums[i];
        if group.Some? && album.group.None? { album := album.(group := group); }
        if release.Some? && album.release.None? { album := album.(release := release); }
        index.albums := index.albums[i := album];
      }
    }

    method BackfillIds(track: TrackId, a: Approval, release: Option<string>)
      modifies index`artists, index`albums, index`tracks
      ensures index.Rows() == Backfilled(old(index.Rows()), track, a, release)
    {
      if track !in index.tracks { return; }
      var row := index.tracks[track];
      index.tracks := index.tracks[track := row.(recording := a.recording.Or(row.recording),
                                                 genre := a.genre.Or(row.genre))];
      if a.artistMbid.Some? && row.artist in index.artists {
        var artist := index.artists[row.artist];
        index.artists := index.artists[row.artist := artist.(mbid := artist.mbid.Or(a.artistMbid))];
      }
      if row.album.Some? && (a.group.Some? || release.Some?) {
        BackfillAlbum(row.album.value, a.group, release);
      }
    }

    method PlaceApprovedTrack(a: Approval) returns (dest: Path, track: TrackId)
      requires StableOk(index.Rows(), a)
      modifies this`disk, index`artists, index`albums, index`tracks, index`files, index`tombstones
      ensures Library(index.Rows(), disk) == Approved(index.nm, old(Library(index.Rows(), disk)), a)
      ensures dest == Dest(a, Anchored(index.nm, old(index.Rows()), a))
    {
      var to := Anchored(index.nm, index.Rows(), a);
      var tags := Written(a, to);
      dest := Dest(a, to);
      if dest !in disk {
        disk := disk[dest := OnDisk(a.now, Some(tags), false)];
      }
      if a.recording.Some? {
        index.tombstones := index.tombstones - {a.recording.value};
      }
      ghost var admitted := index.Rows();
      var _, indexed := index.ProcessFile(disk, dest, false);
      track := indexed.GetOr(TrackKey(index.nm, a.artist, a.title, a.duration));
      BackfillIds(track, a, to.release);
      var effective := Effective(index.Rows(), track, a, to.release);
      if effective.Some? {
        RetagSiblings(track, effective.value, a.now);
      }
    }
  }
}
