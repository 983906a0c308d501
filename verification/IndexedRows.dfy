/** What one indexed file makes of the rows: which values win, and that nothing
    else changes. */
module IndexedRows {
  import opened Prelude
  import opened LibraryIndex

  /** The name a file is filed under. */
  ghost predicate FiledUnder(tags: Tags, name: string) {
    if tags.albumArtist.Some? then tags.albumArtist == Some(name)
    else if tags.artist.Some? then tags.artist == Some(name)
    else name == "Unknown Artist"
  }

  /** The title a track gets: the tag's, else the file name's stem. */
  ghost predicate Titled(nm: Naming, tags: Tags, path: Path, title: string) {
    if tags.title.Some? then tags.title == Some(title)
    else title == if path == [] then "" else nm.stem(path[|path| - 1])
  }

  lemma NamesAre(nm: Naming, tags: Tags, path: Path)
    ensures FiledUnder(tags, NamedArtist(tags)) && Titled(nm, tags, path, NamedTitle(nm, tags, path))
  {
  }

  /** Every key but k has the value it had. */
  ghost predicate OnlyAt<K, V>(before: map<K, V>, after: map<K, V>, k: K) {
    after.Keys == before.Keys + {k} && forall x :: x in before && x in after && x != k ==> after[x] == before[x]
  }

  /** The artist row: the first name stays, sort name and id are filled in. */
  lemma ArtistRowIs(nm: Naming, db: Db, disk: Disk, path: Path, file: OnDisk, tags: Tags)
    ensures var after, name := Indexed(nm, db, disk, path, file, tags).artists, NamedArtist(tags);
            var key := nm.norm(name);
            && FiledUnder(tags, name) && OnlyAt(db.artists, after, key) && key in after
            && (key !in db.artists ==> after[key] == ArtistRow(name, tags.artistSort, tags.artistMbid))
            && (key in db.artists ==>
                  && after[key].name == db.artists[key].name
                  && Chosen(after[key].sort, db.artists[key].sort, tags.artistSort)
                  && Chosen(after[key].mbid, db.artists[key].mbid, tags.artistMbid))
  {
    NamesAre(nm, tags, path);
  }

  /** Row i is the first with this id. */
  ghost predicate First(albums: seq<AlbumRow>, id: AlbumId, i: int) {
    0 <= i < |albums| && albums[i].id == id && forall j :: 0 <= j < i ==> albums[j].id != id
  }

  /** The album rows: none without an album tag; else the row of that key, new at
      the end or with its release id filled in. A year of 0 counts as none. */
  lemma AlbumRowIs(nm: Naming, db: Db, disk: Disk, path: Path, file: OnDisk, tags: Tags)
    ensures var after, name := Indexed(nm, db, disk, path, file, tags).albums, NamedArtist(tags);
            && FiledUnder(tags, name)
            && (tags.album.None? ==> after == db.albums)
            && (tags.album.Some? ==>
                  var id := AlbumId(nm.norm(name), nm.norm(tags.album.value),
                                    if tags.year == Some(0) then None else tags.year);
                  if exists i :: 0 <= i < |db.albums| && db.albums[i].id == id then
                    exists i :: First(db.albums, id, i) && |after| == |db.albums|
                                && after == db.albums[i := db.albums[i].(release := after[i].release)]
                                && Chosen(after[i].release, db.albums[i].release, tags.release)
                  else after == db.albums + [AlbumRow(id, tags.album.value, tags.year, nm.norm(name), None,
                                                      tags.release)])
  {
    NamesAre(nm, tags, path);
    if tags.album.Some? {
      var id := AlbumKey(nm, NamedArtist(tags), tags.album.value, tags.year);
      var i := Find(db.albums, id);
      if i < |db.albums| {
        assert First(db.albums, id, i);
      }
    }
  }

  /** The track row: a new one takes the tags; an existing one keeps title,
      artist and length, and a recording id that it has, and takes album, credit
      and numbers, and a genre if there is one. */
  lemma TrackRowIs(nm: Naming, db: Db, disk: Disk, path: Path, file: OnDisk, tags: Tags)
    ensures var after, name, title := Indexed(nm, db, disk, path, file, tags).tracks, NamedArtist(tags),
                                      NamedTitle(nm, tags, path);
            var t := TrackKey(nm, if tags.artist.Some? then tags.artist.value else name, title, tags.duration);
            && FiledUnder(tags, name) && Titled(nm, tags, path, title) && OnlyAt(db.tracks, after, t) && t in after
            && after[t].album == TaggedAlbum(nm, tags) && after[t].credit == tags.artist
            && after[t].number == tags.number && after[t].disc == tags.disc
            && (t !in db.tracks ==>
                  && after[t].title == title && after[t].artist == nm.norm(name)
                  && after[t].duration == tags.duration && after[t].genre == tags.genre
                  && after[t].recording == tags.recording)
            && (t in db.tracks ==>
                  && after[t].title == db.tracks[t].title && after[t].artist == db.tracks[t].artist
                  && after[t].duration == db.tracks[t].duration
                  && Chosen(after[t].genre, tags.genre, db.tracks[t].genre)
                  && Chosen(after[t].recording, db.tracks[t].recording, tags.recording))
  {
    NamesAre(nm, tags, path);
  }

  /** The file rows: a known file keeps its track, and is rewritten if its time
      has changed; a new one displaces exactly the rows of the same track whose
      files are gone. The cover may be the file's own or lie beside it. */
  lemma FileRowsAre(nm: Naming, db: Db, disk: Disk, path: Path, file: OnDisk, tags: Tags, q: Path)
    ensures var after, t := Indexed(nm, db, disk, path, file, tags).files, TaggedTrack(nm, tags, path);
            && path in after
            && (path in db.files && db.files[path].mtime == file.mtime ==> after == db.files)
            && (path in db.files && db.files[path].mtime != file.mtime ==>
                  after[path] == FileRow(db.files[path].track, file.mtime, tags.codec, tags.cover || file.sidecarCover))
            && (path !in db.files ==>
                  after[path] == FileRow(t, file.mtime, tags.codec, tags.cover || file.sidecarCover))
            && (q != path ==>
                  && (q in after <==> q in db.files && (path in db.files || db.files[q].track != t || q in disk))
                  && (q in after && q in db.files ==> after[q] == db.files[q]))
  {
  }

  /** What is reported of a file that is not barred. */
  lemma StatusIs(nm: Naming, db: Db, disk: Disk, path: Path, incremental: bool)
    ensures var status := ProcessStatus(nm, db, disk, path, incremental);
            if path !in disk then status == Error
            else
              var same := path in db.files && db.files[path].mtime == disk[path].mtime;
              && (incremental && same ==> status == Skipped)
              && (disk[path].tags.None? && !(incremental && same) ==> status == Error)
              && (disk[path].tags.Some? && !Barred(db, disk[path]) ==> (status == Skipped <==> same))
  {
  }
}
