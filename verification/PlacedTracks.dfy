/** What an approved track looks like once it is placed: the tags of its file,
    its rows, and what becomes of everybody else's. */
module PlacedTracks {
  import opened Prelude
  import opened LibraryIndex
  import opened AlbumCohesion
  import opened CohesionRuns

  /** Title and artist are the reviewed ones, and so is everything else that the
      review gave; what it left open stays as the download had it. */
  ghost predicate TaggedAsReviewed(a: Approval, tags: Tags) {
    && tags.title == Some(a.title) && tags.artist == Some(a.artist)
    && Chosen(tags.number, a.number, a.raw.number) && Chosen(tags.disc, a.disc, a.raw.disc)
    && Chosen(tags.genre, a.genre, a.raw.genre) && Chosen(tags.artistSort, a.artistSort, a.raw.artistSort)
    && Chosen(tags.artistMbid, a.artistMbid, a.raw.artistMbid)
    && Chosen(tags.recording, a.recording, a.raw.recording)
    && tags.duration == a.raw.duration && tags.codec == a.raw.codec && tags.cover == a.raw.cover
  }

  /** The album's part of the tags is what cohesion settled on. */
  ghost predicate TaggedAsSettled(a: Approval, to: Anchor, tags: Tags) {
    && tags.albumArtist == Some(to.albumArtist)
    && Chosen(tags.album, to.album, a.raw.album) && Chosen(tags.year, to.year, a.raw.year)
    && Chosen(tags.release, to.release, a.raw.release)
  }

  /** Exactly one file is new, where the layout puts the album that cohesion
      settled on, and it is tagged as reviewed. */
  lemma PlacedTagsAre(nm: Naming, lib: Library, a: Approval)
    requires Legal(nm, lib, a) && Refs(lib.db)
    ensures var after := Approved(nm, lib, a);
            var to := To(nm, lib, a);
            var p := a.layout(to.albumArtist, to.album, to.year);
            && p !in lib.disk && after.disk.Keys == lib.disk.Keys + {p}
            && after.disk[p].tags.Some?
            && TaggedAsReviewed(a, after.disk[p].tags.value) && TaggedAsSettled(a, to, after.disk[p].tags.value)
  {
    ApprovedDisk(nm, lib, a);
    assert TaggedAsReviewed(a, NewTags(nm, lib, a)) && TaggedAsSettled(a, To(nm, lib, a), NewTags(nm, lib, a));
  }

  // ---- What cohesion settles on ----

  ghost predicate OfGroup(db: Db, a: Approval, i: nat) {
    i < |db.albums| && a.group.Some? && db.albums[i].group == a.group && db.albums[i].artist in db.artists
  }

  ghost predicate OfTitle(nm: Naming, db: Db, title: string, name: string, dated: bool, i: nat) {
    && i < |db.albums| && db.albums[i].artist == nm.norm(name) && db.albums[i].year.Some? == dated
    && nm.grouping(db.albums[i].title) == nm.grouping(title)
  }

  /** The name of a row with the artist's MusicBrainz id, if there is one. */
  ghost predicate KnownAs(db: Db, a: Approval, name: string) {
    if a.artistMbid.Some? && exists k :: k in db.artists && db.artists[k].mbid == a.artistMbid
    then exists k :: k in db.artists && db.artists[k].mbid == a.artistMbid && db.artists[k].name == name
    else name == a.albumArtist
  }

  /** The track is put with row i, under the given artist's name: it takes over
      the row's title and release id, and its year if it has one. */
  ghost predicate JoinsRow(db: Db, a: Approval, to: Anchor, name: string, i: nat) {
    && i < |db.albums| && to.found == i && to.albumArtist == name
    && to.album == Some(db.albums[i].title) && to.release == db.albums[i].release
    && Chosen(to.year, db.albums[i].year, a.year)
  }

  /** The oldest row of the release group, under its artist's name. */
  ghost predicate JoinsGroup(db: Db, a: Approval, to: Anchor) {
    exists i: nat :: OfGroup(db, a, i) && (forall j: nat :: j < i ==> !OfGroup(db, a, j))
                     && JoinsRow(db, a, to, db.artists[db.albums[i].artist].name, i)
  }

  ghost predicate JoinsTitle(nm: Naming, db: Db, a: Approval, to: Anchor, title: string, name: string, dated: bool) {
    exists i: nat :: OfTitle(nm, db, title, name, dated, i)
                     && (forall j: nat :: j < i ==> !OfTitle(nm, db, title, name, dated, j))
                     && JoinsRow(db, a, to, name, i)
  }

  /** By title: a dated row if there is one, else an undated one, else none. */
  ghost predicate SettledUnder(nm: Naming, db: Db, a: Approval, to: Anchor, name: string)
    requires a.album.Some?
  {
    var title := a.album.value;
    if exists i: nat :: OfTitle(nm, db, title, name, true, i) then JoinsTitle(nm, db, a, to, title, name, true)
    else if exists i: nat :: OfTitle(nm, db, title, name, false, i) then JoinsTitle(nm, db, a, to, title, name, false)
    else to == Anchor(a.album, name, a.year, a.release, |db.albums|)
  }

  /** No album, no anchor. Otherwise the oldest row of the release group decides;
      failing that the artist's oldest row of the same grouping title, a dated one
      if possible; failing that the review. */
  lemma SettledIs(nm: Naming, db: Db, a: Approval)
    requires StableOk(db, a)
    ensures var to := Anchored(nm, db, a);
            && (a.album.None? ==> to == Anchor(None, a.albumArtist, a.year, a.release, |db.albums|))
            && (a.album.Some? && (exists i: nat :: OfGroup(db, a, i)) ==> JoinsGroup(db, a, to))
            && (a.album.Some? && !(exists i: nat :: OfGroup(db, a, i)) ==>
                  exists name :: KnownAs(db, a, name) && SettledUnder(nm, db, a, to, name))
  {
    if a.album.Some? {
      if exists i: nat :: OfGroup(db, a, i) {
        var i := ByGroup(db.albums, db.artists, a.group.value);
        assert OfGroup(db, a, i) && JoinsRow(db, a, Anchored(nm, db, a), db.artists[db.albums[i].artist].name, i);
      } else {
        SettledByTitle(nm, db, a);
      }
    }
  }

  lemma SettledByTitle(nm: Naming, db: Db, a: Approval)
    requires StableOk(db, a) && a.album.Some? && !exists i: nat :: OfGroup(db, a, i)
    ensures var to, name := Anchored(nm, db, a), Anchored(nm, db, a).albumArtist;
            KnownAs(db, a, name) && SettledUnder(nm, db, a, to, name)
  {
    var to, name, title := Anchored(nm, db, a), Anchored(nm, db, a).albumArtist, a.album.value;
    var dated := FirstSameTitle(nm, db.albums, ArtistKey(nm, name), title, true);
    var undated := FirstSameTitle(nm, db.albums, ArtistKey(nm, name), title, false);
    if a.group.Some? {
      var i := ByGroup(db.albums, db.artists, a.group.value);
      assert i < |db.albums| ==> OfGroup(db, a, i);
    }
    forall i: nat, year: bool
      ensures OfTitle(nm, db, title, name, year, i) <==>
              i < |db.albums| && SameTitle(nm, db.albums[i], ArtistKey(nm, name), title, year)
    {
    }
    if dated < |db.albums| {
      assert OfTitle(nm, db, title, name, true, dated) && JoinsRow(db, a, to, name, dated);
    } else if undated < |db.albums| {
      assert OfTitle(nm, db, title, name, false, undated) && JoinsRow(db, a, to, name, undated);
    }
  }

  /** The new row: the reviewed title and credit, its identity their normal forms
      and the file's length, filed under the album artist. */
  ghost predicate RowAsReviewed(nm: Naming, a: Approval, to: Anchor, t: TrackId, row: TrackRow) {
    && t.artist == nm.norm(a.artist) && t.title == nm.norm(a.title)
    && (t.bucket.Some? <==> a.raw.duration.Some?)
    && (t.bucket.Some? ==>
          var d, b := a.raw.duration.value, t.bucket.value;
          b % 2 == 0 && -1 <= b - d <= 1 && (d % 2 == 1 ==> b % 4 == 0))
    && row.title == a.title && row.credit == Some(a.artist) && row.artist == nm.norm(to.albumArtist)
    && row.duration == a.raw.duration
    && Chosen(row.number, a.number, a.raw.number) && Chosen(row.disc, a.disc, a.raw.disc)
    && Chosen(row.genre, a.genre, a.raw.genre) && Chosen(row.recording, a.recording, a.raw.recording)
    && (row.album.Some? <==> to.album.Some? || a.raw.album.Some?)
  }

  /** Exactly one track row and one file row are new, and belong together; all
      other tracks and files keep theirs. */
  lemma PlacedRowsAre(nm: Naming, lib: Library, a: Approval)
    requires Legal(nm, lib, a) && Refs(lib.db)
    ensures var after := Approved(nm, lib, a);
            var p := a.layout(To(nm, lib, a).albumArtist, To(nm, lib, a).album, To(nm, lib, a).year);
            exists t ::
              && t !in lib.db.tracks && t in after.db.tracks
              && after.db.tracks == lib.db.tracks[t := after.db.tracks[t]]
              && RowAsReviewed(nm, a, To(nm, lib, a), t, after.db.tracks[t])
              && p !in lib.disk && p in after.disk && p !in lib.db.files && p in after.db.files
              && after.db.files == lib.db.files[p := after.db.files[p]]
              && after.db.files[p] == FileRow(t, a.now, a.raw.codec, a.raw.cover)
  {
    ApprovedTracks(nm, lib, a);
    ApprovedFiles(nm, lib, a);
    ApprovedDisk(nm, lib, a);
    NewRowIs(nm, lib, a);
    var t, p := NewTrack(nm, lib, a), NewPath(nm, lib, a);
    assert t !in lib.db.tracks && p !in lib.disk;
  }

  lemma NewRowIs(nm: Naming, lib: Library, a: Approval)
    requires Legal(nm, lib, a) && Refs(lib.db)
    ensures var t, after := NewTrack(nm, lib, a), Approved(nm, lib, a).db;
            && t in after.tracks && RowAsReviewed(nm, a, To(nm, lib, a), t, after.tracks[t])
  {
    ApprovedRows(nm, lib, a);
    if a.raw.duration.Some? { BucketIs(a.raw.duration.value, Bucket(a.raw.duration.value)); }
  }

  // ---- Any approval, of a new track or not ----

  /** A file that was there is left alone, or its release id is replaced by
      another and its time with it. */
  ghost predicate AtMostRetagged(was: OnDisk, now: OnDisk, time: int) {
    || now == was
    || (was.tags.Some? && now.tags.Some? && now.tags.value.release.Some?
        && now.tags.value.release != was.tags.value.release
        && now == was.(mtime := time, tags := Some(was.tags.value.(release := now.tags.value.release))))
  }

  /** No file is lost, at most one appears, and none that need not be is written;
      the recording approved is no longer deleted, and no other tombstone goes. */
  lemma OthersKeepTheirs(nm: Naming, lib: Library, a: Approval)
    requires StableOk(lib.db, a)
    ensures var after := Approved(nm, lib, a);
            && (exists p :: after.disk.Keys == lib.disk.Keys + {p})
            && (forall q :: q in lib.disk ==> q in after.disk && AtMostRetagged(lib.disk[q], after.disk[q], a.now))
            && (forall rid :: rid in after.db.tombstones <==>
                  rid in lib.db.tombstones && a.recording != Some(rid))
            && (forall rid :: rid in after.db.tombstones ==> after.db.tombstones[rid] == lib.db.tombstones[rid])
  {
    var after := Approved(nm, lib, a);
    assert after.disk.Keys == lib.disk.Keys + {NewPath(nm, lib, a)};
  }

  ghost predicate SameBut<K, V>(before: map<K, V>, after: map<K, V>, k: K) {
    before.Keys == after.Keys && forall x :: x in before && x in after && x != k ==> after[x] == before[x]
  }

  /** The backfill of one track: on its own row the reviewed recording and genre
      win; on its artist's and album's rows ids that are there win. */
  lemma BackfillIs(db: Db, track: TrackId, a: Approval, release: Option<string>)
    requires track in db.tracks
    ensures var after, was := Backfilled(db, track, a, release), db.tracks[track];
            && after.files == db.files && after.tombstones == db.tombstones
            && SameBut(db.tracks, after.tracks, track)
            && track in after.tracks
            && var row := after.tracks[track];
               && row == was.(recording := row.recording, genre := row.genre)
               && Chosen(row.recording, a.recording, was.recording) && Chosen(row.genre, a.genre, was.genre)
    ensures var after, key := Backfilled(db, track, a, release), db.tracks[track].artist;
            && SameBut(db.artists, after.artists, key)
            && (key in db.artists && key in after.artists ==>
                  var was, row := db.artists[key], after.artists[key];
                  row == was.(mbid := row.mbid) && Chosen(row.mbid, was.mbid, a.artistMbid))
    ensures var after, album := Backfilled(db, track, a, release), db.tracks[track].album;
            && |after.albums| == |db.albums|
            && forall i :: 0 <= i < |db.albums| ==>
                 var was, row := db.albums[i], after.albums[i];
                 if album == Some(was.id) && (forall j :: 0 <= j < i ==> db.albums[j].id != was.id) then
                   && row == was.(group := row.group, release := row.release)
                   && Chosen(row.group, was.group, a.group) && Chosen(row.release, was.release, release)
                 else row == was
  {
  }

  /** A file that cannot be indexed leaves the files' rows as they are, and of
      the tracks only the one that the review names may be filled in. */
  lemma NotIndexed(nm: Naming, lib: Library, a: Approval, t: TrackId)
    requires StableOk(lib.db, a) && t in lib.db.tracks
    requires var file := Placed(lib.disk, a, To(nm, lib, a))[NewPath(nm, lib, a)];
             file.tags.None? || Barred(Readmitted(lib.db, a.recording), file)
    ensures var after := Approved(nm, lib, a).db;
            && after.files == lib.db.files && after.tracks.Keys == lib.db.tracks.Keys
            && var was, row := lib.db.tracks[t], after.tracks[t];
               if t == TrackKey(nm, a.artist, a.title, a.duration)
               then row == was.(recording := row.recording, genre := row.genre)
                    && Chosen(row.recording, a.recording, was.recording) && Chosen(row.genre, a.genre, was.genre)
               else row == was
  {
    var disk, db, dest := Placed(lib.disk, a, To(nm, lib, a)), Readmitted(lib.db, a.recording), NewPath(nm, lib, a);
    if disk[dest].tags.Some? { BarredIsSkipped(nm, db, disk, dest, false); }
    assert Processed(nm, db, disk, dest, false) == db;
    var track := PlacedTrack(nm, db, disk, a, dest);
    assert track == TrackKey(nm, a.artist, a.title, a.duration);
    if track in db.tracks { BackfillIs(db, track, a, To(nm, lib, a).release); }
  }
}
