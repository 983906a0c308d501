/** Runs of approvals that no release group ties to an album: what the titles
    alone keep together, and what a yearless row or a left-over album tag breaks. */
module TitleRuns {
  import opened Prelude
  import opened LibraryIndex
  import opened AlbumCohesion
  import opened CohesionRuns

  predicate InTitleFamily(nm: Naming, r: AlbumRow, artist: ArtistId, title: string) {
    r.artist == artist && nm.grouping(r.title) == nm.grouping(title)
  }

  ghost predicate HasDated(nm: Naming, albums: seq<AlbumRow>, artist: ArtistId, title: string) {
    exists r :: r in albums && r.year.Some? && InTitleFamily(nm, r, artist, title)
  }

  /** At most one dated row per artist and grouping title. */
  ghost predicate OneDated(nm: Naming, albums: seq<AlbumRow>) {
    forall i, j :: 0 <= i < j < |albums| && albums[i].year.Some? && albums[j].year.Some? ==>
      !InTitleFamily(nm, albums[j], albums[i].artist, albums[i].title)
  }

  /** The row an approval adds, if the key of its tags is new. */
  predicate AddsRow(nm: Naming, lib: Library, a: Approval)
    requires StableOk(lib.db, a)
  {
    var tagged := TaggedAlbum(nm, NewTags(nm, lib, a));
    tagged.Some? && Find(lib.db.albums, tagged.value) == |lib.db.albums|
  }

  predicate AnchoredToYearless(lib: Library, a: Approval) {
    GroupHit(lib.db, a) < |lib.db.albums| && lib.db.albums[GroupHit(lib.db, a)].year.None?
  }

  /** The approval adds a dated row beside a dated one: it was anchored by group
      to a yearless row, or a single kept the album tag of the download. */
  ghost predicate AddsSecondDated(nm: Naming, lib: Library, a: Approval)
    requires StableOk(lib.db, a)
  {
    var tags := NewTags(nm, lib, a);
    && (a.album.None? || AnchoredToYearless(lib, a))
    && AddsRow(nm, lib, a) && tags.album.Some? && tags.year.Some?
    && HasDated(nm, lib.db.albums, ArtistKey(nm, To(nm, lib, a).albumArtist), tags.album.value)
  }

  lemma RowAdded(nm: Naming, lib: Library, a: Approval)
    requires Legal(nm, lib, a)
    ensures var before, after, tags := lib.db.albums, Approved(nm, lib, a).db.albums, NewTags(nm, lib, a);
            && |after| == |before| + (if AddsRow(nm, lib, a) then 1 else 0)
            && (forall i :: 0 <= i < |before| ==> SameColumns(before[i], after[i]))
            && (AddsRow(nm, lib, a) ==>
                  && tags.album.Some? && after[|before|].title == tags.album.value
                  && after[|before|].year == tags.year
                  && after[|before|].artist == ArtistKey(nm, To(nm, lib, a).albumArtist))
  {
    ApprovedAlbums(nm, lib, a);
    AlbumsKept(nm, lib, a);
  }

  lemma NoDatedFound(nm: Naming, albums: seq<AlbumRow>, artist: ArtistId, title: string)
    requires FirstSameTitle(nm, albums, artist, title, true) == |albums|
    ensures !HasDated(nm, albums, artist, title)
  {
    assert forall r :: r in albums ==> !SameTitle(nm, r, artist, title, true);
  }

  /** Anchored by title, or to a dated row, an approval adds no second dated row. */
  lemma OtherwiseNoSecond(nm: Naming, lib: Library, a: Approval)
    requires Inv(nm, lib) && Legal(nm, lib, a) && a.album.Some? && !AnchoredToYearless(lib, a)
    requires AddsRow(nm, lib, a)
    ensures var tags := NewTags(nm, lib, a);
            !HasDated(nm, lib.db.albums, ArtistKey(nm, To(nm, lib, a).albumArtist), tags.album.value)
  {
    var to, albums := To(nm, lib, a), lib.db.albums;
    var artist := ArtistKey(nm, StableArtist(lib.db, a));
    if to.found < |albums| {
      AnchorKey(nm, lib, a);
      FindUnique(albums, to.found);
      assert albums[to.found].year.None? && GroupHit(lib.db, a) == |albums|;
    }
    NoDatedFound(nm, albums, artist, a.album.value);
  }

  lemma StillOneDated(nm: Naming, before: seq<AlbumRow>, after: seq<AlbumRow>)
    requires |before| <= |after| <= |before| + 1
    requires forall i :: 0 <= i < |before| ==> SameColumns(before[i], after[i])
    requires OneDated(nm, before)
    ensures OneDated(nm, after)
            <==> !(|after| > |before| && after[|before|].year.Some?
                   && HasDated(nm, before, after[|before|].artist, after[|before|].title))
  {
    if |after| > |before| && after[|before|].year.Some? {
      var row := after[|before|];
      if HasDated(nm, before, row.artist, row.title) {
        var r :| r in before && r.year.Some? && InTitleFamily(nm, r, row.artist, row.title);
        var i :| 0 <= i < |before| && before[i] == r;
        assert after[i].year.Some? && InTitleFamily(nm, row, after[i].artist, after[i].title);
      } else {
        forall i | 0 <= i < |before| && after[i].year.Some?
          ensures !InTitleFamily(nm, row, after[i].artist, after[i].title)
        {
          assert before[i] in before;
        }
      }
    }
  }

  /** Exactly two things give an artist a second dated row for one title: a
      yearless row anchoring by group, and a single's left-over album tag. */
  lemma OneDatedKeptIff(nm: Naming, lib: Library, a: Approval)
    requires Inv(nm, lib) && Legal(nm, lib, a) && OneDated(nm, lib.db.albums)
    ensures OneDated(nm, Approved(nm, lib, a).db.albums) <==> !AddsSecondDated(nm, lib, a)
  {
    RowAdded(nm, lib, a);
    StillOneDated(nm, lib.db.albums, Approved(nm, lib, a).db.albums);
    if AddsRow(nm, lib, a) && a.album.Some? && !AnchoredToYearless(lib, a) {
      OtherwiseNoSecond(nm, lib, a);
    }
  }

  // ---- Runs ----

  /** Rows that carry a release group have a year. */
  ghost predicate GroupsDated(albums: seq<AlbumRow>) {
    forall r :: r in albums && r.group.Some? ==> r.year.Some?
  }

  /** The album tag is the review's, and a release group comes with a year. */
  predicate WellSourced(a: Approval) {
    AlbumFromReview(a) && (a.group.Some? && a.album.Some? ==> YearPart(a.year.Or(a.raw.year)).Some?)
  }

  lemma LandsDated(nm: Naming, lib: Library, a: Approval)
    requires Inv(nm, lib) && Legal(nm, lib, a) && WellSourced(a) && a.group.Some? && a.album.Some?
    ensures NewTags(nm, lib, a).year.Some?
    ensures var tagged := TaggedAlbum(nm, NewTags(nm, lib, a));
            forall r :: r in lib.db.albums && tagged == Some(r.id) ==> r.year.Some?
  {
    var to, tags := To(nm, lib, a), NewTags(nm, lib, a);
    if to.found < |lib.db.albums| { AnchorKey(nm, lib, a); }
    forall r | r in lib.db.albums && TaggedAlbum(nm, tags) == Some(r.id) ensures r.year.Some? {
      assert KeyedAlbum(nm, r);
      if to.found < |lib.db.albums| && lib.db.albums[to.found].year.Some? {
        assert lib.db.albums[to.found] in lib.db.albums;
        SameIdSameRow(lib.db.albums, r, to.found);
      }
    }
  }

  lemma SameIdSameRow(albums: seq<AlbumRow>, r: AlbumRow, i: nat)
    requires UniqueAlbums(albums) && i < |albums| && r in albums
    ensures r.id == albums[i].id ==> r == albums[i]
  {
  }

  lemma GroupsStayDated(nm: Naming, lib: Library, a: Approval)
    requires Inv(nm, lib) && Legal(nm, lib, a) && WellSourced(a) && GroupsDated(lib.db.albums)
    ensures GroupsDated(Approved(nm, lib, a).db.albums)
  {
    var before, after := lib.db.albums, Approved(nm, lib, a).db.albums;
    RowAdded(nm, lib, a);
    AlbumsKept(nm, lib, a);
    ApprovedAlbums(nm, lib, a);
    if a.group.Some? && a.album.Some? { LandsDated(nm, lib, a); }
    forall r | r in after && r.group.Some? ensures r.year.Some? {
      var i :| 0 <= i < |after| && after[i] == r;
      if i < |before| { assert before[i] in before; }
    }
  }

  lemma StepKeepsTitles(nm: Naming, lib: Library, a: Approval)
    requires Inv(nm, lib) && Legal(nm, lib, a) && WellSourced(a)
    requires OneDated(nm, lib.db.albums) && GroupsDated(lib.db.albums)
    ensures OneDated(nm, Approved(nm, lib, a).db.albums) && GroupsDated(Approved(nm, lib, a).db.albums)
  {
    GroupsStayDated(nm, lib, a);
    GroupsAnchorDated(lib, a);
    OneDatedKeptIff(nm, lib, a);
  }

  lemma GroupsAnchorDated(lib: Library, a: Approval)
    requires GroupsDated(lib.db.albums)
    ensures !AnchoredToYearless(lib, a)
  {
    forall i | 0 <= i < |lib.db.albums| && lib.db.albums[i].group.Some? ensures lib.db.albums[i].year.Some? {
      assert lib.db.albums[i] in lib.db.albums;
    }
  }

  /** The track is in row i by its tags; its album artist may be spelled as the
      approval did, not as the row does. */
  ghost predicate FiledByTitle(nm: Naming, lib: Library, t: TrackId, p: Path, i: nat) {
    && i < |lib.db.albums|
    && t in lib.db.tracks && lib.db.tracks[t].album == Some(lib.db.albums[i].id)
    && p in lib.db.files && lib.db.files[p].track == t
    && p in lib.disk && lib.disk[p].tags.Some?
    && var row, tags := lib.db.albums[i], lib.disk[p].tags.value;
       && tags.album == Some(row.title) && tags.year == row.year
       && tags.albumArtist.Some? && nm.norm(tags.albumArtist.value) == row.artist
  }

  /** No group speaks for the track, and its artist and title are the row's. */
  ghost predicate MatchesByTitle(nm: Naming, lib: Library, a: Approval, i: nat)
    requires StableOk(lib.db, a) && i < |lib.db.albums|
  {
    && a.album.Some? && GroupHit(lib.db, a) == |lib.db.albums|
    && InTitleFamily(nm, lib.db.albums[i], ArtistKey(nm, StableArtist(lib.db, a)), a.album.value)
  }

  lemma FindsTheDated(nm: Naming, lib: Library, a: Approval, i: nat)
    requires Inv(nm, lib) && Legal(nm, lib, a) && OneDated(nm, lib.db.albums)
    requires i < |lib.db.albums| && lib.db.albums[i].year.Some? && MatchesByTitle(nm, lib, a, i)
    ensures To(nm, lib, a).found == i
  {
    var albums, artist := lib.db.albums, ArtistKey(nm, StableArtist(lib.db, a));
    assert SameTitle(nm, albums[i], artist, a.album.value, true);
    var j := FirstSameTitle(nm, albums, artist, a.album.value, true);
    assert j <= i;
    assert SameTitle(nm, albums[j], artist, a.album.value, true);
  }

  lemma FiledByTitleOnApproval(nm: Naming, lib: Library, a: Approval, i: nat)
    requires Inv(nm, lib) && Legal(nm, lib, a) && OneDated(nm, lib.db.albums)
    requires i < |lib.db.albums| && lib.db.albums[i].year.Some? && MatchesByTitle(nm, lib, a, i)
    ensures FiledByTitle(nm, Approved(nm, lib, a), NewTrack(nm, lib, a), NewPath(nm, lib, a), i)
  {
    FindsTheDated(nm, lib, a, i);
    AnchorKey(nm, lib, a);
    ApprovedTracks(nm, lib, a);
    ApprovedFiles(nm, lib, a);
    ApprovedDisk(nm, lib, a);
    AlbumsKept(nm, lib, a);
  }

  lemma StaysFiledByTitle(nm: Naming, lib: Library, a: Approval, t: TrackId, p: Path, i: nat)
    requires Inv(nm, lib) && Legal(nm, lib, a) && FiledByTitle(nm, lib, t, p, i)
    ensures FiledByTitle(nm, Approved(nm, lib, a), t, p, i)
  {
    RowsStay(nm, lib, a, t, p);
    OtherTagsStay(nm, lib, a, p);
    AlbumsKept(nm, lib, a);
  }

  /** A track approved as b, back then, matched row i by title, and is in it now. */
  ghost predicate FiledSince(nm: Naming, then_: Library, b: Approval, now: Library, i: nat) {
    StableOk(then_.db, b) && i < |then_.db.albums| &&
    (MatchesByTitle(nm, then_, b, i) ==> FiledByTitle(nm, now, NewTrack(nm, then_, b), NewPath(nm, then_, b), i))
  }

  ghost predicate StepFiledByTitle(nm: Naming, lib: Library, run: seq<Approval>, k: nat, now: Library, i: nat)
    requires k < |run|
  {
    LegalRun(nm, lib, run[..k]) && FiledSince(nm, Run(nm, lib, run[..k]), run[k], now, i)
  }

  /** It still is once a is approved. */
  lemma FiledSinceStays(nm: Naming, then_: Library, b: Approval, now: Library, a: Approval, i: nat)
    requires Inv(nm, now) && Legal(nm, now, a) && FiledSince(nm, then_, b, now, i)
    ensures FiledSince(nm, then_, b, Approved(nm, now, a), i)
  {
    if MatchesByTitle(nm, then_, b, i) {
      StaysFiledByTitle(nm, now, a, NewTrack(nm, then_, b), NewPath(nm, then_, b), i);
    }
  }

  /** The last approval of a run, and what it starts from. */
  lemma LastOfRun(nm: Naming, lib: Library, run: seq<Approval>)
    requires Inv(nm, lib) && run != [] && LegalRun(nm, lib, run)
    ensures LegalRun(nm, lib, Before(run))
    ensures var now := Run(nm, lib, Before(run));
            Inv(nm, now) && Legal(nm, now, Last(run)) && Run(nm, lib, run) == Approved(nm, now, Last(run))
  {
    InvOverRun(nm, lib, Before(run));
  }

  lemma StepStaysFiledByTitle(nm: Naming, lib: Library, run: seq<Approval>, k: nat, i: nat)
    requires Inv(nm, lib) && run != [] && LegalRun(nm, lib, run) && k < |run| - 1
    requires StepFiledByTitle(nm, lib, Before(run), k, Run(nm, lib, Before(run)), i)
    ensures StepFiledByTitle(nm, lib, run, k, Run(nm, lib, run), i)
  {
    assert Before(run)[..k] == run[..k] && Before(run)[k] == run[k];
    LastOfRun(nm, lib, run);
    FiledSinceStays(nm, Run(nm, lib, run[..k]), run[k], Run(nm, lib, Before(run)), Last(run), i);
  }

  /** Over any run of such approvals an artist has at most one dated row per
      grouping title, and every track that no group speaks for is, at the end,
      in the dated row its artist and title matched. */
  lemma {:induction false} TitlesDoNotFragment(nm: Naming, lib: Library, run: seq<Approval>, i: nat)
    requires Inv(nm, lib) && LegalRun(nm, lib, run) && OneDated(nm, lib.db.albums) && GroupsDated(lib.db.albums)
    requires forall a :: a in run ==> WellSourced(a)
    requires i < |lib.db.albums| && lib.db.albums[i].year.Some?
    ensures var now := Run(nm, lib, run);
            && OneDated(nm, now.db.albums) && GroupsDated(now.db.albums)
            && i < |now.db.albums| && RowKept(lib.db.albums[i], now.db.albums[i])
    ensures forall k :: 0 <= k < |run| ==> StepFiledByTitle(nm, lib, run, k, Run(nm, lib, run), i)
  {
    if run != [] {
      var before, a := Before(run), Last(run);
      var mid := Run(nm, lib, before);
      assert a in run && forall x :: x in before ==> x in run;
      TitlesDoNotFragment(nm, lib, before, i);
      InvOverRun(nm, lib, before);
      StepKeepsTitles(nm, mid, a);
      AlbumsKept(nm, mid, a);
      forall k | 0 <= k < |run| ensures StepFiledByTitle(nm, lib, run, k, Run(nm, lib, run), i) {
        if k == |before| {
          assert run[..k] == before;
          if MatchesByTitle(nm, mid, a, i) { FiledByTitleOnApproval(nm, mid, a, i); }
        } else {
          assert before[k] == run[k];
          StepStaysFiledByTitle(nm, lib, run, k, i);
        }
      }
    }
  }

  // ---- Inputs that break it ----

  const BLANK := Tags(None, None, None, None, None, None, None, None, None, None, None, None, None, "flac", false)

  /** Two rows of one artist, no track yet. */
  function TwoRows(first: AlbumRow, second: AlbumRow): Library {
    Library(Db(map["abba" := ArtistRow("abba", None, None)], [first, second], map[], map[], map[]), map[])
  }

  function Row(title: string, year: Option<int>, group: Option<string>): AlbumRow {
    AlbumRow(AlbumId("abba", title, year), title, year, "abba", group, None)
  }

  function ByAbba(album: Option<string>, year: Option<int>, group: Option<string>, raw: Tags): Approval {
    Approval("t", "abba", "abba", album, year, None, None, None, None, None, None, group, None, None, raw,
             (artist, title, y) => ["t.flac"], None, 0)
  }

  lemma TwoRowsKeepInv(first: AlbumRow, second: AlbumRow)
    requires first.id != second.id && KeyedAlbum(VERBATIM, first) && KeyedAlbum(VERBATIM, second)
    requires first.artist == second.artist == "abba"
    ensures Inv(VERBATIM, TwoRows(first, second))
  {
  }

  /** A single left with the album tag of the oldest row takes the group of
      another: from then on the group leads to the wrong album. */
  lemma LeftOverTagTakesGroup()
    ensures var lib := TwoRows(Row("Gold", Some(1992), None), Row("Live", Some(1986), Some("g")));
            var a := ByAbba(None, None, Some("g"), BLANK.(album := Some("Gold"), year := Some(1992)));
            && Inv(VERBATIM, lib) && Legal(VERBATIM, lib, a) && Canonical(lib, 1, "g")
            && !Canonical(Approved(VERBATIM, lib, a), 1, "g")
  {
    var first, second := Row("Gold", Some(1992), None), Row("Live", Some(1986), Some("g"));
    var lib := TwoRows(first, second);
    var a := ByAbba(None, None, Some("g"), BLANK.(album := Some("Gold"), year := Some(1992)));
    TwoRowsKeepInv(first, second);
    assert lib.db.albums[0] == first && lib.db.albums[1..] == [second];
    assert ByGroup(lib.db.albums[1..], lib.db.artists, "g") == 0;
    assert TaggedAlbum(VERBATIM, NewTags(VERBATIM, lib, a)) == Some(first.id);
    CanonicalKeptIff(VERBATIM, lib, a, 1, "g");
  }

  /** A yearless row that carries the group gives the artist a second dated row
      of the title. */
  lemma YearlessRowSplitsTitle()
    ensures var lib := TwoRows(Row("Gold", None, Some("g")), Row("Gold", Some(1992), None));
            var a := ByAbba(Some("Gold"), Some(2008), Some("g"), BLANK);
            && Inv(VERBATIM, lib) && Legal(VERBATIM, lib, a) && OneDated(VERBATIM, lib.db.albums)
            && !OneDated(VERBATIM, Approved(VERBATIM, lib, a).db.albums)
  {
    var first, second := Row("Gold", None, Some("g")), Row("Gold", Some(1992), None);
    var lib := TwoRows(first, second);
    var a := ByAbba(Some("Gold"), Some(2008), Some("g"), BLANK);
    TwoRowsKeepInv(first, second);
    assert GroupHit(lib.db, a) == 0;
    assert lib.db.albums[1] == second && second in lib.db.albums;
    assert Find(lib.db.albums, AlbumId("abba", "Gold", Some(2008))) == 2 by {
      assert lib.db.albums[1..] == [second] && lib.db.albums[1..][1..] == [];
    }
    OneDatedKeptIff(VERBATIM, lib, a);
  }

  /** One dated album with one track, whose file carries no release id. */
  function OneTrack(): Library {
    var gold := Row("Gold", Some(1992), None);
    var first := TrackId("abba", "old", None);
    Library(Db(map["abba" := ArtistRow("abba", None, None)], [gold],
               map[first := TrackRow("old", "abba", Some(gold.id), None, None, None, None, None, None)],
               map[["old.flac"] := FileRow(first, 0, "flac", false)], map[]),
            map[["old.flac"] := OnDisk(0, Some(BLANK), false)])
  }

  /** A download that brings a release id of its own joins it without a group:
      the album's files disagree. */
  lemma DownloadIdSplitsAlbum()
    ensures var a := ByAbba(Some("Gold"), None, None, BLANK.(release := Some("r")));
            && Inv(VERBATIM, OneTrack()) && Legal(VERBATIM, OneTrack(), a)
            && !Uniform(Approved(VERBATIM, OneTrack(), a), OneTrack().db.albums[0].id)
  {
    var lib, a := OneTrack(), ByAbba(Some("Gold"), None, None, BLANK.(release := Some("r")));
    assert lib.db.albums[0] == Row("Gold", Some(1992), None);
    assert SameTitle(VERBATIM, lib.db.albums[0], "abba", "Gold", true);
    assert To(VERBATIM, lib, a).found == 0;
    assert ["old.flac"] in AlbumFiles(lib, lib.db.albums[0].id) && ReleaseOf(lib, ["old.flac"]) == None;
    assert "t" != "old" && NewPath(VERBATIM, lib, a) == ["t.flac"] && "t.flac" != "old.flac";
    ApprovalUnifiesIff(VERBATIM, lib, a);
  }
}
