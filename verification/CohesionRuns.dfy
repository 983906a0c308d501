/** What runs of approvals keep: albums do not fragment, and the files of one
    album agree on their release id. */
module CohesionRuns {
  import opened Prelude
  import opened LibraryIndex
  import opened AlbumCohesion

  function To(nm: Naming, lib: Library, a: Approval): Anchor
    requires StableOk(lib.db, a)
  {
    Anchored(nm, lib.db, a)
  }

  function NewTags(nm: Naming, lib: Library, a: Approval): Tags
    requires StableOk(lib.db, a)
  {
    Written(a, To(nm, lib, a))
  }

  function NewPath(nm: Naming, lib: Library, a: Approval): Path
    requires StableOk(lib.db, a)
  {
    Dest(a, To(nm, lib, a))
  }

  function NewTrack(nm: Naming, lib: Library, a: Approval): TrackId
    requires StableOk(lib.db, a)
  {
    TaggedTrack(nm, NewTags(nm, lib, a), NewPath(nm, lib, a))
  }

  /** A new track: its identity, its destination and its file row are unused,
      and no tombstone blocks the recording its tags name. */
  ghost predicate Legal(nm: Naming, lib: Library, a: Approval) {
    && StableOk(lib.db, a)
    && NewPath(nm, lib, a) !in lib.disk && NewPath(nm, lib, a) !in lib.db.files
    && NewTrack(nm, lib, a) !in lib.db.tracks
    && !Blocked(Readmitted(lib.db, a.recording), NewTags(nm, lib, a))
  }

  // ---- What rows look like ----

  function YearPart(year: Option<int>): Option<int> {
    if year == Some(0) then None else year
  }

  /** An album row's id is the key of its own columns. */
  predicate KeyedAlbum(nm: Naming, a: AlbumRow) {
    a.id == AlbumId(a.artist, nm.norm(a.title), YearPart(a.year))
  }

  ghost predicate Inv(nm: Naming, lib: Library) {
    && Refs(lib.db)
    && (forall a :: a in lib.db.albums ==> KeyedAlbum(nm, a) && a.artist in lib.db.artists)
    && (forall k :: k in lib.db.artists ==> nm.norm(lib.db.artists[k].name) == k)
  }

  // ---- The shape of one approval ----

  /** The album rows after an approval: the pipeline's backfill amounts to the
      index's own upsert with the release group added. */
  function FiledAlbums(nm: Naming, albums: seq<AlbumRow>, to: Anchor, tags: Tags,
                       group: Option<string>): seq<AlbumRow>
  {
    if tags.album.None? then albums
    else WithAlbum(nm, albums, ArtistKey(nm, to.albumArtist), tags.album.value, tags.year, to.albumArtist,
                   group, tags.release)
  }

  lemma UpsertThenBackfill(nm: Naming, albums: seq<AlbumRow>, to: Anchor, tags: Tags, group: Option<string>)
    requires tags.album.Some? && (to.release.Some? ==> tags.release == to.release)
    ensures var id := AlbumKey(nm, to.albumArtist, tags.album.value, tags.year);
            var once := FiledAlbums(nm, albums, to, tags, None);
            var i := Find(once, id);
            && i < |once| && i == Find(albums, id)
            && once[i := WithIds(once[i], group, to.release)] == FiledAlbums(nm, albums, to, tags, group)
            && (group.None? && to.release.None? ==> once == FiledAlbums(nm, albums, to, tags, group))
  {
    var id := AlbumKey(nm, to.albumArtist, tags.album.value, tags.year);
    var once := FiledAlbums(nm, albums, to, tags, None);
    var i := Find(albums, id);
    assert once[i].id == id;
    assert forall j :: 0 <= j < i ==> once[j].id == albums[j].id;
    assert Find(once, id) == i;
  }

  /** The rows once the placed file is indexed, before the pipeline's backfill. */
  function IndexedNew(nm: Naming, lib: Library, a: Approval): Db
    requires StableOk(lib.db, a)
  {
    Indexed(nm, Readmitted(lib.db, a.recording), Placed(lib.disk, a, To(nm, lib, a)), NewPath(nm, lib, a),
            OnDisk(a.now, Some(NewTags(nm, lib, a)), false), NewTags(nm, lib, a))
  }

  lemma ApprovedRows(nm: Naming, lib: Library, a: Approval)
    requires Legal(nm, lib, a)
    ensures Approved(nm, lib, a).db
            == Backfilled(IndexedNew(nm, lib, a), NewTrack(nm, lib, a), a, To(nm, lib, a).release)
  {
    var to := To(nm, lib, a);
    var disk, dest, db := Placed(lib.disk, a, to), NewPath(nm, lib, a), Readmitted(lib.db, a.recording);
    assert disk[dest] == OnDisk(a.now, Some(NewTags(nm, lib, a)), false);
    assert Admitted(db, disk, dest, false);
  }

  lemma IndexedNewRow(nm: Naming, lib: Library, a: Approval)
    requires Legal(nm, lib, a)
    ensures var t, db := NewTrack(nm, lib, a), IndexedNew(nm, lib, a);
            && t in db.tracks && db.tracks == lib.db.tracks[t := db.tracks[t]]
            && db.tracks[t].album == TaggedAlbum(nm, NewTags(nm, lib, a))
            && db.tracks[t].artist == ArtistKey(nm, To(nm, lib, a).albumArtist)
            && db.albums == FiledAlbums(nm, lib.db.albums, To(nm, lib, a), NewTags(nm, lib, a), None)
  {
  }

  /** The backfill changes one track row, and neither its album nor its artist. */
  lemma BackfillKeepsTracks(db: Db, track: TrackId, a: Approval, release: Option<string>)
    requires track in db.tracks
    ensures var after := Backfilled(db, track, a, release).tracks;
            && track in after && after == db.tracks[track := after[track]]
            && after[track].album == db.tracks[track].album && after[track].artist == db.tracks[track].artist
  {
  }

  lemma ApprovedTracks(nm: Naming, lib: Library, a: Approval)
    requires Legal(nm, lib, a)
    ensures var t, tracks := NewTrack(nm, lib, a), Approved(nm, lib, a).db.tracks;
            && t in tracks && tracks == lib.db.tracks[t := tracks[t]]
            && tracks[t].album == TaggedAlbum(nm, NewTags(nm, lib, a))
            && tracks[t].artist == ArtistKey(nm, To(nm, lib, a).albumArtist)
  {
    ApprovedRows(nm, lib, a);
    IndexedNewRow(nm, lib, a);
    BackfillKeepsTracks(IndexedNew(nm, lib, a), NewTrack(nm, lib, a), a, To(nm, lib, a).release);
  }

  lemma ApprovedAlbums(nm: Naming, lib: Library, a: Approval)
    requires Legal(nm, lib, a)
    ensures Approved(nm, lib, a).db.albums
            == FiledAlbums(nm, lib.db.albums, To(nm, lib, a), NewTags(nm, lib, a), a.group)
  {
    var tags, to := NewTags(nm, lib, a), To(nm, lib, a);
    ApprovedRows(nm, lib, a);
    IndexedNewRow(nm, lib, a);
    if tags.album.Some? {
      UpsertThenBackfill(nm, lib.db.albums, to, tags, a.group);
    }
  }

  lemma IndexedNewArtists(nm: Naming, lib: Library, a: Approval)
    requires Legal(nm, lib, a)
    ensures IndexedNew(nm, lib, a).artists
            == WithArtist(nm, lib.db.artists, To(nm, lib, a).albumArtist, NewTags(nm, lib, a).artistSort,
                          NewTags(nm, lib, a).artistMbid)
  {
  }

  /** The same artists under the same names. */
  predicate SameNames(before: map<ArtistId, ArtistRow>, after: map<ArtistId, ArtistRow>) {
    before.Keys == after.Keys && forall k :: k in before && k in after ==> after[k].name == before[k].name
  }

  lemma BackfillKeepsNames(db: Db, track: TrackId, a: Approval, release: Option<string>)
    ensures SameNames(db.artists, Backfilled(db, track, a, release).artists)
  {
  }

  lemma ApprovedArtists(nm: Naming, lib: Library, a: Approval)
    requires Legal(nm, lib, a)
    ensures var to, after := To(nm, lib, a), Approved(nm, lib, a).db.artists;
            && ArtistKey(nm, to.albumArtist) in after
            && (forall k :: k in lib.db.artists ==> k in after && after[k].name == lib.db.artists[k].name)
            && forall k :: k in after && k !in lib.db.artists ==>
                 k == ArtistKey(nm, to.albumArtist) && after[k].name == to.albumArtist
  {
    ApprovedRows(nm, lib, a);
    IndexedNewArtists(nm, lib, a);
    BackfillKeepsNames(IndexedNew(nm, lib, a), NewTrack(nm, lib, a), a, To(nm, lib, a).release);
  }

  lemma ApprovedFiles(nm: Naming, lib: Library, a: Approval)
    requires Legal(nm, lib, a) && Refs(lib.db)
    ensures var p, files := NewPath(nm, lib, a), Approved(nm, lib, a).db.files;
            p in files && files == lib.db.files[p := files[p]] && files[p].track == NewTrack(nm, lib, a)
  {
    ApprovedRows(nm, lib, a);
    var p, t := NewPath(nm, lib, a), NewTrack(nm, lib, a);
    var row := FileRow(t, a.now, NewTags(nm, lib, a).codec, NewTags(nm, lib, a).cover);
    var disk := Placed(lib.disk, a, To(nm, lib, a));
    assert forall q :: q in lib.db.files ==> lib.db.files[q].track != t;
    assert WithoutStale(lib.db.files[p := row], t, p, disk) == lib.db.files[p := row];
    assert Approved(nm, lib, a).db.files == WithFile(lib.db.files, p, row, disk);
  }

  /** The release id brought to the siblings of the new track. */
  function Spread(nm: Naming, lib: Library, a: Approval): Option<string>
    requires StableOk(lib.db, a)
  {
    Effective(Approved(nm, lib, a).db, NewTrack(nm, lib, a), a, To(nm, lib, a).release)
  }

  function NewSiblings(nm: Naming, lib: Library, a: Approval): set<Path>
    requires StableOk(lib.db, a)
  {
    Siblings(Approved(nm, lib, a).db, NewTrack(nm, lib, a))
  }

  lemma ApprovedDisk(nm: Naming, lib: Library, a: Approval)
    requires Legal(nm, lib, a) && Refs(lib.db)
    ensures var p, disk, spread := NewPath(nm, lib, a), Approved(nm, lib, a).disk, Spread(nm, lib, a);
            && disk.Keys == lib.disk.Keys + {p}
            && disk[p].tags == Some(NewTags(nm, lib, a))
            && forall q :: q in lib.disk ==>
                 disk[q] == if spread.Some? && q in NewSiblings(nm, lib, a)
                            then Retagged(lib.disk[q], spread.value, a.now) else lib.disk[q]
  {
    var to := To(nm, lib, a);
    var placed, dest, db := Placed(lib.disk, a, to), NewPath(nm, lib, a), Readmitted(lib.db, a.recording);
    assert placed[dest] == OnDisk(a.now, Some(NewTags(nm, lib, a)), false);
    assert Admitted(db, placed, dest, false);
    assert PlacedTrack(nm, db, placed, a, dest) == NewTrack(nm, lib, a);
    ApprovedFiles(nm, lib, a);
    assert dest !in NewSiblings(nm, lib, a);
  }

  // ---- Where an approval lands ----

  lemma FindUnique(albums: seq<AlbumRow>, i: nat)
    requires UniqueAlbums(albums) && i < |albums|
    ensures Find(albums, albums[i].id) == i
  {
  }

  /** The key recomputed from the tags is the anchor row's own, exactly when the
      years agree; they do whenever that row has one. */
  lemma AnchorKey(nm: Naming, lib: Library, a: Approval)
    requires Inv(nm, lib) && Legal(nm, lib, a) && To(nm, lib, a).found < |lib.db.albums|
    ensures var row, tags := lib.db.albums[To(nm, lib, a).found], NewTags(nm, lib, a);
            && tags.album == Some(row.title) && ArtistKey(nm, To(nm, lib, a).albumArtist) == row.artist
            && TaggedAlbum(nm, tags) == Some(AlbumId(row.artist, nm.norm(row.title), YearPart(tags.year)))
            && (row.year.Some? ==> tags.year == row.year)
            && (row.year.None? ==> tags.year == a.year.Or(a.raw.year))
            && (TaggedAlbum(nm, tags) == Some(row.id) <==> YearPart(tags.year) == YearPart(row.year))
  {
    var to := To(nm, lib, a);
    var row := lib.db.albums[to.found];
    assert row in lib.db.albums;
  }

  predicate SameColumns(x: AlbumRow, y: AlbumRow) {
    x.id == y.id && x.title == y.title && x.year == y.year && x.artist == y.artist
  }

  /** Rows are never lost, reordered or renamed; ids are only filled in. */
  predicate RowKept(x: AlbumRow, y: AlbumRow) {
    && SameColumns(x, y)
    && (x.group.Some? ==> y.group == x.group)
    && (x.release.Some? ==> y.release == x.release)
  }

  lemma UpsertKeepsRows(nm: Naming, albums: seq<AlbumRow>, artist: string, title: string, year: Option<int>,
                        group: Option<string>, release: Option<string>)
    ensures var after := WithAlbum(nm, albums, ArtistKey(nm, artist), title, year, artist, group, release);
            && |albums| <= |after| <= |albums| + 1
            && (forall i :: 0 <= i < |albums| ==> RowKept(albums[i], after[i]))
            && (forall i :: 0 <= i < |albums| && AlbumKey(nm, artist, title, year) != albums[i].id ==>
                  after[i] == albums[i])
  {
  }

  lemma AlbumsKept(nm: Naming, lib: Library, a: Approval)
    requires Legal(nm, lib, a)
    ensures var before, after := lib.db.albums, Approved(nm, lib, a).db.albums;
            && |before| <= |after| <= |before| + 1
            && (forall i :: 0 <= i < |before| ==> RowKept(before[i], after[i]))
            && (forall i :: 0 <= i < |before| && TaggedAlbum(nm, NewTags(nm, lib, a)) != Some(before[i].id) ==>
                  after[i] == before[i])
  {
    var to, tags := To(nm, lib, a), NewTags(nm, lib, a);
    ApprovedAlbums(nm, lib, a);
    if tags.album.Some? {
      UpsertKeepsRows(nm, lib.db.albums, to.albumArtist, tags.album.value, tags.year, a.group, tags.release);
    }
  }

  lemma AlbumRefsKept(nm: Naming, lib: Library, a: Approval)
    requires Inv(nm, lib) && Legal(nm, lib, a)
    ensures var after := Approved(nm, lib, a).db.albums;
            && UniqueAlbums(after) && (forall id :: HasAlbum(lib.db.albums, id) ==> HasAlbum(after, id))
            && (TaggedAlbum(nm, NewTags(nm, lib, a)).Some? ==>
                  HasAlbum(after, TaggedAlbum(nm, NewTags(nm, lib, a)).value))
  {
    var to, tags := To(nm, lib, a), NewTags(nm, lib, a);
    ApprovedAlbums(nm, lib, a);
    if tags.album.Some? {
      AlbumUpserted(nm, lib.db.albums, ArtistKey(nm, to.albumArtist), tags.album.value, tags.year, to.albumArtist,
                    a.group, tags.release);
    }
  }

  lemma RefsKept(nm: Naming, lib: Library, a: Approval)
    requires Inv(nm, lib) && Legal(nm, lib, a)
    ensures Refs(Approved(nm, lib, a).db)
  {
    var after := Approved(nm, lib, a).db;
    ApprovedTracks(nm, lib, a);
    ApprovedFiles(nm, lib, a);
    AlbumRefsKept(nm, lib, a);
    assert forall t :: t in after.tracks ==> after.tracks[t].artist in after.artists by {
      ApprovedArtists(nm, lib, a);
    }
  }

  lemma KeysKept(nm: Naming, lib: Library, a: Approval)
    requires Inv(nm, lib) && Legal(nm, lib, a)
    ensures var after := Approved(nm, lib, a).db;
            forall r :: r in after.albums ==> KeyedAlbum(nm, r) && r.artist in after.artists
  {
    var after := Approved(nm, lib, a).db;
    ApprovedAlbums(nm, lib, a);
    ApprovedArtists(nm, lib, a);
    AlbumsKept(nm, lib, a);
    forall r | r in after.albums ensures KeyedAlbum(nm, r) && r.artist in after.artists {
      var i :| 0 <= i < |after.albums| && after.albums[i] == r;
      if i < |lib.db.albums| {
        assert lib.db.albums[i] in lib.db.albums;
      }
    }
  }

  lemma InvKept(nm: Naming, lib: Library, a: Approval)
    requires Inv(nm, lib) && Legal(nm, lib, a)
    ensures Inv(nm, Approved(nm, lib, a))
  {
    RefsKept(nm, lib, a);
    KeysKept(nm, lib, a);
    ApprovedArtists(nm, lib, a);
  }

  /** Approved without an album, a track joins none exactly when the download
      brought no album tag of its own: writing tags never clears one. */
  lemma SingleStaysOutIff(nm: Naming, lib: Library, a: Approval)
    requires Legal(nm, lib, a) && a.album.None?
    ensures Approved(nm, lib, a).db.tracks[NewTrack(nm, lib, a)].album.None? <==> a.raw.album.None?
    ensures a.raw.album.None? ==> Approved(nm, lib, a).db.albums == lib.db.albums
  {
    ApprovedTracks(nm, lib, a);
    ApprovedAlbums(nm, lib, a);
  }

  // ---- Runs ----

  /** Every approval of the run is for a new track at the time it is made. */
  ghost predicate LegalRun(nm: Naming, lib: Library, run: seq<Approval>)
    decreases |run|, 0
  {
    run == [] || (LegalRun(nm, lib, Before(run)) && Legal(nm, Run(nm, lib, Before(run)), Last(run)))
  }

  function Before(run: seq<Approval>): seq<Approval>
    requires run != []
  {
    run[..|run| - 1]
  }

  function Last(run: seq<Approval>): Approval
    requires run != []
  {
    run[|run| - 1]
  }

  ghost function Run(nm: Naming, lib: Library, run: seq<Approval>): Library
    requires LegalRun(nm, lib, run)
    decreases |run|, 1
  {
    if run == [] then lib else Approved(nm, Run(nm, lib, Before(run)), Last(run))
  }

  lemma {:induction false} InvOverRun(nm: Naming, lib: Library, run: seq<Approval>)
    requires Inv(nm, lib) && LegalRun(nm, lib, run)
    ensures Inv(nm, Run(nm, lib, run))
  {
    if run != [] {
      InvOverRun(nm, lib, Before(run));
      InvKept(nm, Run(nm, lib, Before(run)), Last(run));
    }
  }

  // ---- Albums do not fragment ----

  /** A track resolved to a release group that some row carries is filed in the
      oldest such row exactly when that row has a year, or the track brings none
      of its own. */
  lemma LandsInCanonicalIff(nm: Naming, lib: Library, a: Approval)
    requires Inv(nm, lib) && Legal(nm, lib, a) && a.album.Some? && GroupHit(lib.db, a) < |lib.db.albums|
    ensures var row := lib.db.albums[GroupHit(lib.db, a)];
            Approved(nm, lib, a).db.tracks[NewTrack(nm, lib, a)].album == Some(row.id)
            <==> row.year.Some? || YearPart(a.year.Or(a.raw.year)).None?
  {
    AnchorKey(nm, lib, a);
    ApprovedTracks(nm, lib, a);
  }

  /** When it is not filed there, a second row comes to carry the group. */
  lemma YearlessRowFragments(nm: Naming, lib: Library, a: Approval) returns (j: nat)
    requires Inv(nm, lib) && Legal(nm, lib, a) && a.album.Some? && GroupHit(lib.db, a) < |lib.db.albums|
    requires var row := lib.db.albums[GroupHit(lib.db, a)];
             var year := YearPart(a.year.Or(a.raw.year));
             row.year.None? && year.Some? && !HasAlbum(lib.db.albums, AlbumId(row.artist, nm.norm(row.title), year))
    ensures var albums := Approved(nm, lib, a).db.albums;
            && GroupHit(lib.db, a) < j < |albums|
            && albums[j].group == albums[GroupHit(lib.db, a)].group == a.group
            && Approved(nm, lib, a).db.tracks[NewTrack(nm, lib, a)].album == Some(albums[j].id)
  {
    AnchorKey(nm, lib, a);
    ApprovedTracks(nm, lib, a);
    ApprovedAlbums(nm, lib, a);
    AlbumsKept(nm, lib, a);
    j := |lib.db.albums|;
    assert Find(lib.db.albums, TaggedAlbum(nm, NewTags(nm, lib, a)).value) == j;
  }

  /** Row `i` is the oldest one of its release group. */
  predicate Canonical(lib: Library, i: nat, group: string) {
    i < |lib.db.albums| && ByGroup(lib.db.albums, lib.db.artists, group) == i && lib.db.albums[i].year.Some?
  }

  /** The track at `p` is in row `i`, under that row's title, artist and year. */
  ghost predicate FiledIn(lib: Library, t: TrackId, p: Path, i: nat) {
    && i < |lib.db.albums|
    && t in lib.db.tracks && lib.db.tracks[t].album == Some(lib.db.albums[i].id)
    && p in lib.db.files && lib.db.files[p].track == t
    && p in lib.disk && lib.disk[p].tags.Some?
    && var row, tags := lib.db.albums[i], lib.disk[p].tags.value;
       && row.artist in lib.db.artists
       && tags.album == Some(row.title) && tags.year == row.year
       && tags.albumArtist == Some(lib.db.artists[row.artist].name)
  }

  /** The album tag a file carries is the review's, not one the download had. */
  predicate AlbumFromReview(a: Approval) {
    a.album.None? ==> a.raw.album.None?
  }

  /** A track approved without an album whose left-over album tag leads to an
      older, ungrouped row: that row takes the group. */
  ghost predicate TakesGroup(albums: seq<AlbumRow>, tagged: Option<AlbumId>, a: Approval, i: nat, group: string)
    requires i <= |albums|
  {
    && a.album.None? && a.group == Some(group)
    && exists j :: 0 <= j < i && tagged == Some(albums[j].id) && albums[j].group.None?
  }

  /** The group column of a row after the approval. */
  lemma GroupAfter(nm: Naming, lib: Library, a: Approval, j: nat)
    requires Inv(nm, lib) && Legal(nm, lib, a) && j < |lib.db.albums|
    ensures j < |Approved(nm, lib, a).db.albums|
    ensures Approved(nm, lib, a).db.albums[j].group
            == if TaggedAlbum(nm, NewTags(nm, lib, a)) == Some(lib.db.albums[j].id)
               then lib.db.albums[j].group.Or(a.group) else lib.db.albums[j].group
  {
    ApprovedAlbums(nm, lib, a);
    FindUnique(lib.db.albums, j);
  }

  /** A reviewed album of the group leads to the group's own row. */
  lemma GroupLeadsHome(nm: Naming, lib: Library, a: Approval, i: nat, group: string)
    requires Inv(nm, lib) && Legal(nm, lib, a) && Canonical(lib, i, group)
    requires a.group == Some(group) && a.album.Some?
    ensures TaggedAlbum(nm, NewTags(nm, lib, a)) == Some(lib.db.albums[i].id)
  {
    AnchorKey(nm, lib, a);
  }

  lemma OlderRowStaysUngrouped(nm: Naming, lib: Library, a: Approval, i: nat, j: nat, group: string)
    requires Inv(nm, lib) && Legal(nm, lib, a) && Canonical(lib, i, group) && j < i
    requires !TakesGroup(lib.db.albums, TaggedAlbum(nm, NewTags(nm, lib, a)), a, i, group)
    ensures j < |Approved(nm, lib, a).db.albums| && Approved(nm, lib, a).db.albums[j].group != Some(group)
  {
    var before := lib.db.albums;
    assert before[j] in before && before[j].group != Some(group);
    GroupAfter(nm, lib, a, j);
    if a.group == Some(group) && a.album.Some? {
      GroupLeadsHome(nm, lib, a, i, group);
      assert before[i].id != before[j].id;
    }
  }

  lemma TakenGroup(nm: Naming, lib: Library, a: Approval, i: nat, group: string)
    requires Inv(nm, lib) && Legal(nm, lib, a) && Canonical(lib, i, group)
    requires TakesGroup(lib.db.albums, TaggedAlbum(nm, NewTags(nm, lib, a)), a, i, group)
    ensures !Canonical(Approved(nm, lib, a), i, group)
  {
    var before, after := lib.db.albums, Approved(nm, lib, a).db;
    var j :| 0 <= j < i && TaggedAlbum(nm, NewTags(nm, lib, a)) == Some(before[j].id) && before[j].group.None?;
    GroupAfter(nm, lib, a, j);
    KeysKept(nm, lib, a);
    assert after.albums[j] in after.albums;
  }

  ghost predicate NoneBefore(albums: seq<AlbumRow>, i: nat, group: string) {
    forall j :: 0 <= j < i && j < |albums| ==> albums[j].group != Some(group)
  }

  lemma OlderRowsStayUngrouped(nm: Naming, lib: Library, a: Approval, i: nat, group: string)
    requires Inv(nm, lib) && Legal(nm, lib, a) && Canonical(lib, i, group)
    requires !TakesGroup(lib.db.albums, TaggedAlbum(nm, NewTags(nm, lib, a)), a, i, group)
    ensures NoneBefore(Approved(nm, lib, a).db.albums, i, group)
  {
    var after := Approved(nm, lib, a).db.albums;
    forall j | 0 <= j < i && j < |after| ensures after[j].group != Some(group) {
      OlderRowStaysUngrouped(nm, lib, a, i, j, group);
    }
  }

  lemma StillOldest(nm: Naming, lib: Library, a: Approval, i: nat, group: string)
    requires Inv(nm, lib) && Legal(nm, lib, a) && Canonical(lib, i, group)
    requires NoneBefore(Approved(nm, lib, a).db.albums, i, group)
    ensures Canonical(Approved(nm, lib, a), i, group)
  {
    var after := Approved(nm, lib, a).db;
    AlbumsKept(nm, lib, a);
    KeysKept(nm, lib, a);
    assert after.albums[i] in after.albums;
    FirstOfGroup(after.albums, after.artists, group, i);
  }

  /** The group's dated oldest row stays its oldest row exactly when no single
      with a left-over album tag takes the group to an older one. */
  lemma CanonicalKeptIff(nm: Naming, lib: Library, a: Approval, i: nat, group: string)
    requires Inv(nm, lib) && Legal(nm, lib, a) && Canonical(lib, i, group)
    ensures Canonical(Approved(nm, lib, a), i, group)
            <==> !TakesGroup(lib.db.albums, TaggedAlbum(nm, NewTags(nm, lib, a)), a, i, group)
  {
    if TakesGroup(lib.db.albums, TaggedAlbum(nm, NewTags(nm, lib, a)), a, i, group) {
      TakenGroup(nm, lib, a, i, group);
    } else {
      OlderRowsStayUngrouped(nm, lib, a, i, group);
      StillOldest(nm, lib, a, i, group);
    }
  }

  /** The group's oldest row stays its oldest row, with the same columns. */
  lemma CanonicalKept(nm: Naming, lib: Library, a: Approval, i: nat, group: string)
    requires Inv(nm, lib) && Legal(nm, lib, a) && AlbumFromReview(a) && Canonical(lib, i, group)
    ensures Canonical(Approved(nm, lib, a), i, group)
    ensures RowKept(lib.db.albums[i], Approved(nm, lib, a).db.albums[i])
  {
    CanonicalKeptIff(nm, lib, a, i, group);
    AlbumsKept(nm, lib, a);
  }

  lemma FirstOfGroup(albums: seq<AlbumRow>, artists: map<ArtistId, ArtistRow>, group: string, i: nat)
    requires i < |albums| && albums[i].group == Some(group) && albums[i].artist in artists
    requires forall j :: 0 <= j < i ==> albums[j].group != Some(group)
    ensures ByGroup(albums, artists, group) == i
  {
  }

  lemma FiledOnApproval(nm: Naming, lib: Library, a: Approval, i: nat, group: string)
    requires Inv(nm, lib) && Legal(nm, lib, a) && AlbumFromReview(a) && Canonical(lib, i, group)
    requires a.group == Some(group) && a.album.Some?
    ensures FiledIn(Approved(nm, lib, a), NewTrack(nm, lib, a), NewPath(nm, lib, a), i)
  {
    CanonicalKept(nm, lib, a, i, group);
    AnchorKey(nm, lib, a);
    ApprovedTracks(nm, lib, a);
    ApprovedArtists(nm, lib, a);
    ApprovedFiles(nm, lib, a);
    ApprovedDisk(nm, lib, a);
    assert lib.db.albums[i] in lib.db.albums;
  }

  /** Retagging siblings leaves the tags albums are told apart by alone. */
  lemma OtherTagsStay(nm: Naming, lib: Library, a: Approval, p: Path)
    requires Inv(nm, lib) && Legal(nm, lib, a) && p in lib.disk && lib.disk[p].tags.Some?
    ensures var disk := Approved(nm, lib, a).disk;
            && p in disk && disk[p].tags.Some?
            && var before, after := lib.disk[p].tags.value, disk[p].tags.value;
               && after.album == before.album && after.year == before.year && after.albumArtist == before.albumArtist
  {
    ApprovedDisk(nm, lib, a);
  }

  lemma RowsStay(nm: Naming, lib: Library, a: Approval, t: TrackId, p: Path)
    requires Inv(nm, lib) && Legal(nm, lib, a) && t in lib.db.tracks && p in lib.db.files
    ensures var after := Approved(nm, lib, a).db;
            && t in after.tracks && after.tracks[t] == lib.db.tracks[t]
            && p in after.files && after.files[p] == lib.db.files[p]
  {
    ApprovedTracks(nm, lib, a);
    ApprovedFiles(nm, lib, a);
  }

  lemma StaysFiled(nm: Naming, lib: Library, a: Approval, t: TrackId, p: Path, i: nat)
    requires Inv(nm, lib) && Legal(nm, lib, a) && FiledIn(lib, t, p, i)
    ensures FiledIn(Approved(nm, lib, a), t, p, i)
  {
    RowsStay(nm, lib, a, t, p);
    OtherTagsStay(nm, lib, a, p);
    AlbumsKept(nm, lib, a);
    ApprovedArtists(nm, lib, a);
    assert lib.db.albums[i] in lib.db.albums;
  }

  /** The track approved at step `k` of the run is in row `i` of `now`. */
  ghost predicate StepFiled(nm: Naming, lib: Library, run: seq<Approval>, k: nat, now: Library, i: nat)
    requires k < |run|
  {
    && LegalRun(nm, lib, run[..k])
    && var then_ := Run(nm, lib, run[..k]);
       && StableOk(then_.db, run[k])
       && FiledIn(now, NewTrack(nm, then_, run[k]), NewPath(nm, then_, run[k]), i)
  }

  lemma StepStaysFiled(nm: Naming, lib: Library, run: seq<Approval>, k: nat, i: nat)
    requires Inv(nm, lib) && run != [] && LegalRun(nm, lib, run) && k < |run| - 1
    requires StepFiled(nm, lib, Before(run), k, Run(nm, lib, Before(run)), i)
    ensures StepFiled(nm, lib, run, k, Run(nm, lib, run), i)
  {
    assert Before(run)[..k] == run[..k] && Before(run)[k] == run[k];
    InvOverRun(nm, lib, Before(run));
    var then_ := Run(nm, lib, run[..k]);
    StaysFiled(nm, Run(nm, lib, Before(run)), Last(run), NewTrack(nm, then_, run[k]), NewPath(nm, then_, run[k]), i);
  }

  /** Over any run of approvals of new tracks: once the oldest row of a release
      group has a year, it stays the group's oldest row and keeps its title,
      year and artist; its ids, once set, never change; and every later track of
      the run resolved to the group is, at the end, in that very row under that
      row's title, year and album artist. */
  lemma {:induction false} AlbumsDoNotFragment(nm: Naming, lib: Library, run: seq<Approval>, i: nat, group: string)
    requires Inv(nm, lib) && LegalRun(nm, lib, run) && Canonical(lib, i, group)
    requires forall a :: a in run ==> AlbumFromReview(a)
    ensures Canonical(Run(nm, lib, run), i, group)
    ensures RowKept(lib.db.albums[i], Run(nm, lib, run).db.albums[i])
    ensures forall k :: 0 <= k < |run| && run[k].group == Some(group) && run[k].album.Some? ==>
              StepFiled(nm, lib, run, k, Run(nm, lib, run), i)
  {
    if run != [] {
      var before, a := Before(run), Last(run);
      var mid := Run(nm, lib, before);
      assert a in run && forall x :: x in before ==> x in run;
      AlbumsDoNotFragment(nm, lib, before, i, group);
      InvOverRun(nm, lib, before);
      CanonicalKept(nm, mid, a, i, group);
      forall k | 0 <= k < |run| && run[k].group == Some(group) && run[k].album.Some?
        ensures StepFiled(nm, lib, run, k, Run(nm, lib, run), i)
      {
        if k == |before| {
          assert run[..k] == before;
          FiledOnApproval(nm, mid, a, i, group);
        } else {
          assert before[k] == run[k];
          StepStaysFiled(nm, lib, run, k, i);
        }
      }
    }
  }

  /** Such a row arises with the first approval of a dated album. */
  lemma FirstApprovalAnchors(nm: Naming, disk: Disk, tombstones: map<string, bool>, a: Approval)
    requires Legal(nm, Library(Db(map[], [], map[], map[], tombstones), disk), a)
    requires a.album.Some? && a.year.Some? && a.group.Some?
    ensures var lib := Library(Db(map[], [], map[], map[], tombstones), disk);
            Inv(nm, Approved(nm, lib, a)) && Canonical(Approved(nm, lib, a), 0, a.group.value)
  {
    var lib := Library(Db(map[], [], map[], map[], tombstones), disk);
    EmptyLibraryAgrees(nm, disk, tombstones);
    InvKept(nm, lib, a);
    ApprovedAlbums(nm, lib, a);
    var albums := Approved(nm, lib, a).db.albums;
    assert |albums| == 1 && albums[0] in albums;
  }

  // ---- One release id per album ----

  /** Files of the album's tracks that are on disk and readable. */
  function AlbumFiles(lib: Library, id: AlbumId): set<Path> {
    set p | p in lib.db.files && lib.db.files[p].track in lib.db.tracks
            && lib.db.tracks[lib.db.files[p].track].album == Some(id)
            && p in lib.disk && lib.disk[p].tags.Some?
  }

  function ReleaseOf(lib: Library, p: Path): Option<string>
    requires p in lib.disk && lib.disk[p].tags.Some?
  {
    lib.disk[p].tags.value.release
  }

  ghost predicate Uniform(lib: Library, id: AlbumId) {
    forall p, q :: p in AlbumFiles(lib, id) && q in AlbumFiles(lib, id) ==> ReleaseOf(lib, p) == ReleaseOf(lib, q)
  }

  /** Another file's rows are as they were, and so is whether it can be read. */
  lemma OtherFileStays(nm: Naming, lib: Library, a: Approval, p: Path)
    requires Inv(nm, lib) && Legal(nm, lib, a) && p != NewPath(nm, lib, a)
    ensures var after := Approved(nm, lib, a).db;
            && (p in after.files <==> p in lib.db.files)
            && (p in lib.db.files ==> after.files[p] == lib.db.files[p])
  {
    ApprovedFiles(nm, lib, a);
  }

  lemma OtherFileReads(nm: Naming, lib: Library, a: Approval, p: Path)
    requires Inv(nm, lib) && Legal(nm, lib, a) && p != NewPath(nm, lib, a)
    ensures var after := Approved(nm, lib, a).disk;
            && (p in after <==> p in lib.disk) && (p in lib.disk ==> (after[p].tags.Some? <==> lib.disk[p].tags.Some?))
  {
    ApprovedDisk(nm, lib, a);
  }

  lemma OtherTrackStays(nm: Naming, lib: Library, a: Approval, t: TrackId)
    requires Inv(nm, lib) && Legal(nm, lib, a) && t in lib.db.tracks
    ensures t in Approved(nm, lib, a).db.tracks && Approved(nm, lib, a).db.tracks[t] == lib.db.tracks[t]
  {
    ApprovedTracks(nm, lib, a);
  }

  lemma AlbumFileAfter(nm: Naming, lib: Library, a: Approval, id: AlbumId, p: Path)
    requires Inv(nm, lib) && Legal(nm, lib, a) && p != NewPath(nm, lib, a)
    ensures p in AlbumFiles(Approved(nm, lib, a), id) <==> p in AlbumFiles(lib, id)
  {
    OtherFileStays(nm, lib, a, p);
    OtherFileReads(nm, lib, a, p);
    if p in lib.db.files { OtherTrackStays(nm, lib, a, lib.db.files[p].track); }
  }

  lemma NewFileAfter(nm: Naming, lib: Library, a: Approval, id: AlbumId)
    requires Inv(nm, lib) && Legal(nm, lib, a)
    ensures NewPath(nm, lib, a) in AlbumFiles(Approved(nm, lib, a), id)
            <==> TaggedAlbum(nm, NewTags(nm, lib, a)) == Some(id)
  {
    ApprovedTracks(nm, lib, a);
    ApprovedFiles(nm, lib, a);
    ApprovedDisk(nm, lib, a);
  }

  lemma AlbumFilesAfter(nm: Naming, lib: Library, a: Approval, id: AlbumId)
    requires Inv(nm, lib) && Legal(nm, lib, a)
    ensures AlbumFiles(Approved(nm, lib, a), id)
            == AlbumFiles(lib, id) + if TaggedAlbum(nm,
                                                    NewTags(nm, lib, a)) == Some(id) then {NewPath(nm, lib, a)} else {}
  {
    var after, path := AlbumFiles(Approved(nm, lib, a), id), NewPath(nm, lib, a);
    NewFileAfter(nm, lib, a, id);
    assert path !in AlbumFiles(lib, id);
    forall p | p != path ensures p in after <==> p in AlbumFiles(lib, id) {
      AlbumFileAfter(nm, lib, a, id, p);
    }
  }

  lemma SiblingsAre(nm: Naming, lib: Library, a: Approval, id: AlbumId, p: Path)
    requires Inv(nm, lib) && Legal(nm, lib, a) && p in AlbumFiles(lib, id)
    ensures p in NewSiblings(nm, lib, a) <==> TaggedAlbum(nm, NewTags(nm, lib, a)) == Some(id)
  {
    ApprovedTracks(nm, lib, a);
    ApprovedFiles(nm, lib, a);
  }

  lemma EffectiveOf(db: Db, track: TrackId, a: Approval, release: Option<string>, i: nat)
    requires track in db.tracks && i < |db.albums| && Find(db.albums, db.albums[i].id) == i
    requires db.tracks[track].album == Some(db.albums[i].id)
    requires db.albums[i].release == release
    ensures Effective(db, track, a, release) == release
  {
  }

  /** The row the anchored track lands in takes the download's own release id if
      it has none. */
  lemma AnchorRowAfter(nm: Naming, lib: Library, a: Approval)
    requires Inv(nm, lib) && Legal(nm, lib, a) && To(nm, lib, a).found < |lib.db.albums|
    requires TaggedAlbum(nm, NewTags(nm, lib, a)) == Some(lib.db.albums[To(nm, lib, a).found].id)
    ensures var i, before, after := To(nm, lib, a).found, lib.db.albums, Approved(nm, lib, a).db.albums;
            i < |after| && after[i].id == before[i].id && after[i].release == before[i].release.Or(a.raw.release)
  {
    AnchorRelease(nm, lib, a);
    ApprovedAlbums(nm, lib, a);
    FindUnique(lib.db.albums, To(nm, lib, a).found);
  }

  lemma AnchorRowFound(nm: Naming, lib: Library, a: Approval)
    requires Inv(nm, lib) && Legal(nm, lib, a) && To(nm, lib, a).found < |lib.db.albums|
    requires TaggedAlbum(nm, NewTags(nm, lib, a)) == Some(lib.db.albums[To(nm, lib, a).found].id)
    ensures var i, after := To(nm, lib, a).found, Approved(nm, lib, a).db.albums;
            i < |after| && Find(after, after[i].id) == i
  {
    AlbumsKept(nm, lib, a);
    InvKept(nm, lib, a);
    FindUnique(Approved(nm, lib, a).db.albums, To(nm, lib, a).found);
  }

  /** What is brought to the siblings of a track anchored to this row: the row's
      release id, or else the download's own if the approval has a group. */
  function AnchorSpread(row: AlbumRow, a: Approval): Option<string> {
    row.release.Or(if a.group.Some? then a.raw.release else None)
  }

  lemma SpreadIs(nm: Naming, lib: Library, a: Approval)
    requires Inv(nm, lib) && Legal(nm, lib, a) && To(nm, lib, a).found < |lib.db.albums|
    requires TaggedAlbum(nm, NewTags(nm, lib, a)) == Some(lib.db.albums[To(nm, lib, a).found].id)
    ensures Spread(nm, lib, a) == AnchorSpread(lib.db.albums[To(nm, lib, a).found], a)
  {
    ApprovedTracks(nm, lib, a);
    AnchorRowAfter(nm, lib, a);
    AnchorRowFound(nm, lib, a);
    AnchorRelease(nm, lib, a);
  }

  lemma OldFileRelease(nm: Naming, lib: Library, a: Approval, id: AlbumId, p: Path)
    requires Inv(nm, lib) && Legal(nm, lib, a) && TaggedAlbum(nm, NewTags(nm, lib, a)) == Some(id)
    requires p in AlbumFiles(lib, id)
    ensures var after := Approved(nm, lib, a).disk;
            p in after && after[p].tags.Some?
            && after[p].tags.value.release == Spread(nm, lib, a).Or(ReleaseOf(lib, p))
  {
    ApprovedDisk(nm, lib, a);
    SiblingsAre(nm, lib, a, id, p);
  }

  lemma NewFileRelease(nm: Naming, lib: Library, a: Approval)
    requires Inv(nm, lib) && Legal(nm, lib, a)
    ensures var after, path := Approved(nm, lib, a).disk, NewPath(nm, lib, a);
            path in after && after[path].tags == Some(NewTags(nm, lib, a)) && path !in lib.disk
            && NewTags(nm, lib, a).release == To(nm, lib, a).release.Or(a.raw.release)
  {
    ApprovedDisk(nm, lib, a);
  }

  lemma AnchorFilesAfter(nm: Naming, lib: Library, a: Approval, id: AlbumId)
    requires Inv(nm, lib) && Legal(nm, lib, a) && To(nm, lib, a).found < |lib.db.albums|
    requires id == lib.db.albums[To(nm, lib, a).found].id && TaggedAlbum(nm, NewTags(nm, lib, a)) == Some(id)
    ensures var row, after, path := lib.db.albums[To(nm, lib, a).found], Approved(nm, lib, a), NewPath(nm, lib, a);
            && AlbumFiles(after, id) == AlbumFiles(lib, id) + {path} && path !in AlbumFiles(lib, id)
            && ReleaseOf(after, path) == row.release.Or(a.raw.release)
            && forall p :: p in AlbumFiles(lib, id) ==>
                 p in AlbumFiles(after, id) && ReleaseOf(after, p) == AnchorSpread(row, a).Or(ReleaseOf(lib, p))
  {
    var row := lib.db.albums[To(nm, lib, a).found];
    AlbumFilesAfter(nm, lib, a, id);
    SpreadIs(nm, lib, a);
    AnchorRelease(nm, lib, a);
    NewFileRelease(nm, lib, a);
    forall p | p in AlbumFiles(lib, id)
      ensures ReleaseOf(Approved(nm, lib, a), p) == AnchorSpread(row, a).Or(ReleaseOf(lib, p))
    {
      OldFileRelease(nm, lib, a, id, p);
    }
  }

  lemma UniformAfterIff(lib: Library, after: Library, id: AlbumId, path: Path, own: Option<string>,
                        spread: Option<string>)
    requires AlbumFiles(after, id) == AlbumFiles(lib, id) + {path} && ReleaseOf(after, path) == own
    requires forall q :: q in AlbumFiles(lib, id) ==> ReleaseOf(after, q) == spread.Or(ReleaseOf(lib, q))
    ensures Uniform(after, id) <==> forall q :: q in AlbumFiles(lib, id) ==> spread.Or(ReleaseOf(lib, q)) == own
  {
    assert path in AlbumFiles(after, id);
    if Uniform(after, id) {
      forall q | q in AlbumFiles(lib, id) ensures spread.Or(ReleaseOf(lib, q)) == own {
        assert q in AlbumFiles(after, id);
      }
    }
  }

  /** In any library, however its files and the download are tagged: after a
      track joins an album that has a year, the album's files agree on their
      release id exactly when the row has one, or the download brought one and
      the approval a group, or every file of the album already carried what the
      download carries, or like it none. */
  lemma ApprovalUnifiesIff(nm: Naming, lib: Library, a: Approval)
    requires Inv(nm, lib) && Legal(nm, lib, a)
    requires To(nm, lib, a).found < |lib.db.albums| && lib.db.albums[To(nm, lib, a).found].year.Some?
    ensures var row := lib.db.albums[To(nm, lib, a).found];
            Uniform(Approved(nm, lib, a), row.id)
            <==> || row.release.Some? || (a.raw.release.Some? && a.group.Some?)
                 || forall p :: p in AlbumFiles(lib, row.id) ==> ReleaseOf(lib, p) == a.raw.release
  {
    var row, after := lib.db.albums[To(nm, lib, a).found], Approved(nm, lib, a);
    assert TaggedAlbum(nm, NewTags(nm, lib, a)) == Some(row.id) by { AnchorKey(nm, lib, a); }
    AnchorFilesAfter(nm, lib, a, row.id);
    UniformAfterIff(lib, after, row.id, NewPath(nm, lib, a), row.release.Or(a.raw.release), AnchorSpread(row, a));
  }

  lemma AnchorRelease(nm: Naming, lib: Library, a: Approval)
    requires StableOk(lib.db, a) && To(nm, lib, a).found < |lib.db.albums|
    ensures To(nm, lib, a).release == lib.db.albums[To(nm, lib, a).found].release
  {
  }

  /** Equal identity forms have equal grouping forms. */
  ghost predicate GroupingFactors(nm: Naming) {
    forall x, y :: nm.norm(x) == nm.norm(y) ==> nm.grouping(x) == nm.grouping(y)
  }

  /** The download carried no album, year or release tag of its own. */
  predicate Untagged(a: Approval) {
    a.raw.album.None? && a.raw.year.None? && a.raw.release.None?
  }

  /** Same artist and same normalised title, whatever the year. */
  predicate InFamily(nm: Naming, r: AlbumRow, artist: ArtistId, title: string) {
    r.artist == artist && nm.norm(r.title) == title
  }

  ghost predicate FamiliesAgree(nm: Naming, albums: seq<AlbumRow>) {
    forall r, s :: r in albums && s in albums && InFamily(nm, s, r.artist, nm.norm(r.title)) ==> r.release == s.release
  }

  /** Every file of every album carries exactly its row's release id. */
  ghost predicate FilesCarry(lib: Library) {
    forall r, p :: r in lib.db.albums && p in AlbumFiles(lib, r.id) ==> ReleaseOf(lib, p) == r.release
  }

  /** Whatever row the tags lead to, its family already has the anchor's release. */
  lemma AnchorSpeaksForFamily(nm: Naming, lib: Library, a: Approval, r: AlbumRow)
    requires Inv(nm, lib) && Legal(nm, lib, a) && Untagged(a) && GroupingFactors(nm) && FamiliesAgree(nm, lib.db.albums)
    requires r in lib.db.albums && a.album.Some?
    requires InFamily(nm, r, ArtistKey(nm, To(nm, lib, a).albumArtist), nm.norm(To(nm, lib, a).album.value))
    ensures r.release == To(nm, lib, a).release
  {
    var to := To(nm, lib, a);
    if to.found < |lib.db.albums| {
      AnchorKey(nm, lib, a);
      assert lib.db.albums[to.found] in lib.db.albums;
    }
  }

  /** A row the tags lead to already has the anchor's release, so the upsert
      changes no row. */
  lemma UpsertKeepsReleases(nm: Naming, lib: Library, a: Approval)
    requires Inv(nm, lib) && Legal(nm, lib, a) && Untagged(a) && GroupingFactors(nm) && FamiliesAgree(nm, lib.db.albums)
    requires a.album.Some?
    ensures var i := Find(lib.db.albums, TaggedAlbum(nm, NewTags(nm, lib, a)).value);
            i < |lib.db.albums| ==> lib.db.albums[i].release == To(nm, lib, a).release
  {
    var before := lib.db.albums;
    var i := Find(before, TaggedAlbum(nm, NewTags(nm, lib, a)).value);
    if i < |before| {
      assert before[i] in before && KeyedAlbum(nm, before[i]);
      AnchorSpeaksForFamily(nm, lib, a, before[i]);
    }
  }

  lemma UpsertReleases(nm: Naming, albums: seq<AlbumRow>, artist: string, title: string, year: Option<int>,
                       group: Option<string>, release: Option<string>)
    requires var i := Find(albums, AlbumKey(nm, artist, title, year));
             i < |albums| ==> albums[i].release == release
    ensures var after := WithAlbum(nm, albums, ArtistKey(nm, artist), title, year, artist, group, release);
            && |albums| <= |after|
            && (forall i :: 0 <= i < |albums| ==> after[i].release == albums[i].release)
            && forall i :: |albums| <= i < |after| ==>
                 after[i].release == release && InFamily(nm, after[i], ArtistKey(nm, artist), nm.norm(title))
  {
  }

  /** Existing rows keep their release id, present or absent, and a row the
      track lands in has the anchor's. */
  lemma ReleasesNeverChange(nm: Naming, lib: Library, a: Approval)
    requires Inv(nm, lib) && Legal(nm, lib, a) && Untagged(a) && GroupingFactors(nm) && FamiliesAgree(nm, lib.db.albums)
    ensures var before, after, to := lib.db.albums, Approved(nm, lib, a).db.albums, To(nm, lib, a);
            && |before| <= |after|
            && (forall i :: 0 <= i < |before| ==> after[i].release == before[i].release)
            && forall i :: |before| <= i < |after| ==>
                 a.album.Some? && after[i].release == to.release
                 && InFamily(nm, after[i], ArtistKey(nm, to.albumArtist), nm.norm(to.album.value))
  {
    ApprovedAlbums(nm, lib, a);
    if a.album.Some? {
      var to, tags := To(nm, lib, a), NewTags(nm, lib, a);
      UpsertKeepsReleases(nm, lib, a);
      assert tags.album == to.album && tags.release == to.release;
      UpsertReleases(nm, lib.db.albums, to.albumArtist, to.album.value, tags.year, a.group, to.release);
    }
  }

  /** An old row and a new row of one family have the same release. */
  lemma OldAndNewAgree(nm: Naming, lib: Library, a: Approval, i: nat, j: nat)
    requires Inv(nm, lib) && Legal(nm, lib, a) && Untagged(a) && GroupingFactors(nm) && FamiliesAgree(nm, lib.db.albums)
    requires i < |lib.db.albums| <= j < |Approved(nm, lib, a).db.albums|
    requires var r, s := lib.db.albums[i], Approved(nm, lib, a).db.albums[j];
             s.artist == r.artist && nm.norm(s.title) == nm.norm(r.title)
    ensures Approved(nm, lib, a).db.albums[j].release == lib.db.albums[i].release
  {
    ReleasesNeverChange(nm, lib, a);
    assert lib.db.albums[i] in lib.db.albums;
    AnchorSpeaksForFamily(nm, lib, a, lib.db.albums[i]);
  }

  lemma OldRowsAgree(nm: Naming, lib: Library, a: Approval, i: nat, j: nat)
    requires Inv(nm, lib) && Legal(nm, lib, a) && Untagged(a) && GroupingFactors(nm) && FamiliesAgree(nm, lib.db.albums)
    requires i < |lib.db.albums| && j < |lib.db.albums|
    requires InFamily(nm, lib.db.albums[j], lib.db.albums[i].artist, nm.norm(lib.db.albums[i].title))
    ensures var after := Approved(nm, lib, a).db.albums;
            |lib.db.albums| <= |after| && after[i].release == after[j].release
  {
    ReleasesNeverChange(nm, lib, a);
    assert lib.db.albums[i] in lib.db.albums && lib.db.albums[j] in lib.db.albums;
  }

  lemma RowsAgree(nm: Naming, lib: Library, a: Approval, i: nat, j: nat)
    requires Inv(nm, lib) && Legal(nm, lib, a) && Untagged(a) && GroupingFactors(nm) && FamiliesAgree(nm, lib.db.albums)
    requires var after := Approved(nm, lib, a).db.albums;
             i < |after| && j < |after| && InFamily(nm, after[j], after[i].artist, nm.norm(after[i].title))
    ensures Approved(nm, lib, a).db.albums[i].release == Approved(nm, lib, a).db.albums[j].release
  {
    var before := lib.db.albums;
    AlbumsKept(nm, lib, a);
    if i < |before| && j < |before| {
      OldRowsAgree(nm, lib, a, i, j);
    } else {
      ReleasesNeverChange(nm, lib, a);
      if i < |before| { OldAndNewAgree(nm, lib, a, i, j); }
      if j < |before| { OldAndNewAgree(nm, lib, a, j, i); }
    }
  }

  lemma FamiliesStayAgreed(nm: Naming, lib: Library, a: Approval)
    requires Inv(nm, lib) && Legal(nm, lib, a) && Untagged(a) && GroupingFactors(nm) && FamiliesAgree(nm, lib.db.albums)
    ensures FamiliesAgree(nm, Approved(nm, lib, a).db.albums)
  {
    var after := Approved(nm, lib, a).db.albums;
    forall r, s | r in after && s in after && InFamily(nm, s, r.artist, nm.norm(r.title))
      ensures r.release == s.release
    {
      var i :| 0 <= i < |after| && after[i] == r;
      var j :| 0 <= j < |after| && after[j] == s;
      RowsAgree(nm, lib, a, i, j);
    }
  }

  lemma LandingRow(nm: Naming, lib: Library, a: Approval, i: nat)
    requires Inv(nm, lib) && Legal(nm, lib, a) && Untagged(a) && GroupingFactors(nm) && FamiliesAgree(nm, lib.db.albums)
    requires var albums := Approved(nm, lib, a).db.albums;
             i < |albums| && TaggedAlbum(nm, NewTags(nm, lib, a)) == Some(albums[i].id)
    ensures Approved(nm, lib, a).db.albums[i].release == To(nm, lib, a).release == NewTags(nm, lib, a).release
    ensures Spread(nm, lib, a) == To(nm, lib, a).release
  {
    var before, after := lib.db.albums, Approved(nm, lib, a).db;
    ReleasesNeverChange(nm, lib, a);
    AlbumsKept(nm, lib, a);
    if i < |before| {
      assert before[i] in before && KeyedAlbum(nm, before[i]);
      AnchorSpeaksForFamily(nm, lib, a, before[i]);
    }
    ApprovedTracks(nm, lib, a);
    InvKept(nm, lib, a);
    FindUnique(after.albums, i);
    EffectiveOf(after, NewTrack(nm, lib, a), a, To(nm, lib, a).release, i);
  }

  lemma OldFileRow(nm: Naming, lib: Library, a: Approval, i: nat, p: Path)
    requires Inv(nm, lib) && Legal(nm, lib, a) && Untagged(a) && GroupingFactors(nm)
    requires FamiliesAgree(nm, lib.db.albums) && FilesCarry(lib)
    requires i < |Approved(nm, lib, a).db.albums| && p in AlbumFiles(lib, Approved(nm, lib, a).db.albums[i].id)
    ensures ReleaseOf(lib, p) == Approved(nm, lib, a).db.albums[i].release
  {
    var before, after := lib.db.albums, Approved(nm, lib, a).db.albums;
    ReleasesNeverChange(nm, lib, a);
    AlbumsKept(nm, lib, a);
    InvKept(nm, lib, a);
    var j :| 0 <= j < |before| && before[j].id == after[i].id;
    assert after[j].id == after[i].id;
    assert i == j && before[j] in before;
  }

  lemma FileCarries(nm: Naming, lib: Library, a: Approval, i: nat, p: Path)
    requires Inv(nm, lib) && Legal(nm, lib, a) && Untagged(a) && GroupingFactors(nm)
    requires FamiliesAgree(nm, lib.db.albums) && FilesCarry(lib)
    requires i < |Approved(nm, lib, a).db.albums|
    requires p in AlbumFiles(Approved(nm, lib, a), Approved(nm, lib, a).db.albums[i].id)
    ensures ReleaseOf(Approved(nm, lib, a), p) == Approved(nm, lib, a).db.albums[i].release
  {
    var id := Approved(nm, lib, a).db.albums[i].id;
    AlbumFilesAfter(nm, lib, a, id);
    ApprovedDisk(nm, lib, a);
    if TaggedAlbum(nm, NewTags(nm, lib, a)) == Some(id) {
      LandingRow(nm, lib, a, i);
    }
    if p in AlbumFiles(lib, id) {
      SiblingsAre(nm, lib, a, id, p);
      OldFileRow(nm, lib, a, i, p);
    }
  }

  lemma FilesStillCarry(nm: Naming, lib: Library, a: Approval)
    requires Inv(nm, lib) && Legal(nm, lib, a) && Untagged(a) && GroupingFactors(nm)
    requires FamiliesAgree(nm, lib.db.albums) && FilesCarry(lib)
    ensures FilesCarry(Approved(nm, lib, a))
  {
    var after := Approved(nm, lib, a);
    forall r, p | r in after.db.albums && p in AlbumFiles(after, r.id)
      ensures ReleaseOf(after, p) == r.release
    {
      var i :| 0 <= i < |after.db.albums| && after.db.albums[i] == r;
      FileCarries(nm, lib, a, i, p);
    }
  }

  /** Over any run of approvals of untagged downloads, from the empty library or
      any whose albums agree with their files: every file of every album carries
      exactly the release id its row has, and carries none when the row has none. */
  lemma {:induction false} OneReleaseIdPerAlbum(nm: Naming, lib: Library, run: seq<Approval>)
    requires Inv(nm, lib) && LegalRun(nm, lib, run) && GroupingFactors(nm)
    requires FamiliesAgree(nm, lib.db.albums) && FilesCarry(lib)
    requires forall a :: a in run ==> Untagged(a)
    ensures FamiliesAgree(nm, Run(nm, lib, run).db.albums) && FilesCarry(Run(nm, lib, run))
    ensures forall r :: r in Run(nm, lib, run).db.albums ==> Uniform(Run(nm, lib, run), r.id)
  {
    if run != [] {
      var before, a := Before(run), Last(run);
      assert a in run && forall x :: x in before ==> x in run;
      OneReleaseIdPerAlbum(nm, lib, before);
      InvOverRun(nm, lib, before);
      FamiliesStayAgreed(nm, Run(nm, lib, before), a);
      FilesStillCarry(nm, Run(nm, lib, before), a);
    }
  }

  lemma EmptyLibraryAgrees(nm: Naming, disk: Disk, tombstones: map<string, bool>)
    ensures var lib := Library(Db(map[], [], map[], map[], tombstones), disk);
            Inv(nm, lib) && FamiliesAgree(nm, lib.db.albums) && FilesCarry(lib)
  {
  }
}
