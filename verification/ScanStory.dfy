/** Three scans of a small library, after which an album names an artist that
    the sweep has deleted. */
module ScanStory {
  import opened Prelude
  import opened LibraryIndex
  import opened LibraryScanner

  const KEPT: Path := ["one.flac"]
  const LOST: Path := ["two.flac"]

  const EMPTY := Db(map[], [], map[], map[], map[])

  function TagsOf(title: string, albumArtist: string, album: Option<string>): Tags {
    Tags(Some(title), Some("guest"), Some(albumArtist), album, None, None, None, None, None, None, None, None,
         None, "flac", false)
  }

  function Song(mtime: int, title: string, albumArtist: string, album: Option<string>): OnDisk {
    OnDisk(mtime, Some(TagsOf(title, albumArtist, album)), false)
  }

  /** An album track and a single of one artist. */
  function AtFirst(): Disk {
    map[KEPT := Song(1, "one", "abba", Some("Gold")), LOST := Song(1, "two", "abba", None)]
  }

  /** The album track is retagged to another album artist. */
  function Retagged(): Disk {
    map[KEPT := Song(2, "one", "frida", Some("Gold")), LOST := Song(1, "two", "abba", None)]
  }

  /** The single is deleted. */
  function AtLast(): Disk {
    map[KEPT := Song(2, "one", "frida", Some("Gold"))]
  }

  function Track(title: string): TrackId {
    TrackId("guest", title, None)
  }

  function GoldBy(artist: string): AlbumRow {
    AlbumRow(AlbumId(artist, "Gold", None), "Gold", None, artist, None, None)
  }

  function TrackRowOf(title: string, album: Option<AlbumId>): TrackRow {
    TrackRow(title, "abba", album, Some("guest"), None, None, None, None, None)
  }

  function FileRowOf(title: string, mtime: int): FileRow {
    FileRow(Track(title), mtime, "flac", false)
  }

  function AfterOne(): Db {
    Db(map["abba" := ArtistRow("abba", None, None)], [GoldBy("abba")],
       map[Track("one") := TrackRowOf("one", Some(GoldBy("abba").id))],
       map[KEPT := FileRowOf("one", 1)], map[])
  }

  function Before(): Db {
    Db(map["abba" := ArtistRow("abba", None, None)], [GoldBy("abba")],
       map[Track("one") := TrackRowOf("one", Some(GoldBy("abba").id)), Track("two") := TrackRowOf("two", None)],
       map[KEPT := FileRowOf("one", 1), LOST := FileRowOf("two", 1)], map[])
  }

  /** The retagged track has a new album under the new artist, and keeps its own. */
  function After(): Db {
    Db(map["abba" := ArtistRow("abba", None, None), "frida" := ArtistRow("frida", None, None)],
       [GoldBy("abba"), GoldBy("frida")],
       map[Track("one") := TrackRowOf("one", Some(GoldBy("frida").id)), Track("two") := TrackRowOf("two", None)],
       map[KEPT := FileRowOf("one", 2), LOST := FileRowOf("two", 1)], map[])
  }

  lemma FirstFile()
    ensures Processed(VERBATIM, EMPTY, AtFirst(), KEPT, true) == AfterOne()
  {
    assert Admitted(EMPTY, AtFirst(), KEPT, true);
    assert WithoutStale(map[KEPT := FileRowOf("one", 1)], Track("one"), KEPT,
                        AtFirst()) == map[KEPT := FileRowOf("one", 1)];
  }

  lemma SecondFile()
    ensures Processed(VERBATIM, AfterOne(), AtFirst(), LOST, true) == Before()
  {
    assert Admitted(AfterOne(), AtFirst(), LOST, true);
    assert Track("one") != Track("two");
    assert WithoutStale(Before().files, Track("two"), LOST, AtFirst()) == Before().files;
  }

  lemma RetaggedFile()
    ensures Processed(VERBATIM, Before(), Retagged(), KEPT, true) == After()
  {
    assert Admitted(Before(), Retagged(), KEPT, true);
    assert Find([GoldBy("abba")], GoldBy("frida").id) == 1;
  }

  lemma TwoFiles(db: Db, disk: Disk, incremental: bool)
    ensures Walk(VERBATIM, db, disk, [KEPT, LOST], incremental).db
            == Processed(VERBATIM, Processed(VERBATIM, db, disk, KEPT, incremental), disk, LOST, incremental)
  {
    WalkSnoc(VERBATIM, db, disk, [], KEPT, incremental);
    WalkSnoc(VERBATIM, db, disk, [KEPT], LOST, incremental);
    assert [] + [KEPT] == [KEPT] && [KEPT] + [LOST] == [KEPT, LOST];
  }

  /** A full scan of the last disk walks over unchanged rows. */
  lemma LastWalk()
    ensures Walk(VERBATIM, After(), AtLast(), [KEPT], false).db == After()
  {
    WalkSnoc(VERBATIM, After(), AtLast(), [], KEPT, false);
    assert [] + [KEPT] == [KEPT];
    assert Admitted(After(), AtLast(), KEPT, false);
    assert Find(After().albums, GoldBy("frida").id) == 1 by {
      assert After().albums[1..] == [GoldBy("frida")];
    }
  }

  lemma BothIndexesAreSound()
    ensures Refs(Before()) && AlbumArtistsResolve(Before()) && Refs(After()) && AlbumArtistsResolve(After())
  {
    assert Before().albums[0] == After().albums[0] == GoldBy("abba") && After().albums[1] == GoldBy("frida");
  }

  /** The rows left once the single is gone. */
  function Surviving(): map<TrackId, TrackRow> {
    map[Track("one") := TrackRowOf("one", Some(GoldBy("frida").id))]
  }

  lemma OneTrackSurvives()
    ensures var files := After().files - {LOST};
            After().tracks - (After().tracks.Keys - LiveTracks(files)) == Surviving()
  {
    var files := After().files - {LOST};
    assert files == map[KEPT := FileRowOf("one", 2)];
    assert LiveTracks(files) == {files[KEPT].track} == {Track("one")};
    assert Track("one") != Track("two");
    assert After().tracks.Keys - {Track("one")} == {Track("two")};
  }

  lemma NewAlbumIsLive()
    ensures GoldBy("frida").id in LiveAlbums(Surviving()) && "frida" !in LiveArtists(Surviving())
  {
    assert Surviving()[Track("one")].album == Some(GoldBy("frida").id);
    forall t | t in Surviving() ensures Surviving()[t].artist != "frida" {}
  }

  lemma SweepDeletesTheArtist()
    ensures !AlbumArtistsResolve(Swept(After(), {LOST}))
  {
    BothIndexesAreSound();
    OneTrackSurvives();
    NewAlbumIsLive();
    SweepKeepsAlbumArtistsIff(After(), {LOST});
    assert Track("two") in After().tracks && Track("two") !in Surviving();
    assert GoldBy("frida") == After().albums[1];
  }

  lemma ScanOne()
    ensures Scanned(VERBATIM, EMPTY, AtFirst(), [KEPT, LOST], true).db == Before()
  {
    TwoFiles(EMPTY, AtFirst(), true);
    FirstFile();
    SecondFile();
  }

  lemma ScanTwo()
    ensures Scanned(VERBATIM, Before(), Retagged(), [KEPT, LOST], true).db == After()
  {
    TwoFiles(Before(), Retagged(), true);
    RetaggedFile();
    assert !Admitted(After(), Retagged(), LOST, true);
  }

  lemma ScanThree()
    ensures Scanned(VERBATIM, After(), AtLast(), [KEPT], false).db == Swept(After(), {LOST})
  {
    LastWalk();
    assert SeenOf([KEPT]) == {KEPT};
    assert Gone(After(), [KEPT]) == {LOST};
  }

  /** From an empty index: a scan, a scan after a retag, and a full scan after a
      deletion. References hold throughout but for the last album's artist. */
  lemma SweptArtistStillNamed()
    ensures var one := Scanned(VERBATIM, EMPTY, AtFirst(), [KEPT, LOST], true).db;
            var two := Scanned(VERBATIM, one, Retagged(), [KEPT, LOST], true).db;
            var three := Scanned(VERBATIM, two, AtLast(), [KEPT], false).db;
            Refs(two) && AlbumArtistsResolve(two) && Refs(three) && !AlbumArtistsResolve(three)
  {
    ScanOne();
    ScanTwo();
    ScanThree();
    BothIndexesAreSound();
    SweepDeletesTheArtist();
    SweepKeepsRefs(After(), {LOST});
  }
}
