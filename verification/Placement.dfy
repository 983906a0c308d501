/** Which of the two libraries, shared or private, a track is filed in, and why
    an album never straddles them. */
module Placement {
  import opened Prelude
  import opened TreeMerge
  import opened ArtistFolders

  /** `key` identifies artists, `folder` is the path component of a name,
      `various` the rule for compilation artists, and `compiled` the stricter
      one the path layout uses (it does not strip blanks). */
  datatype Names = Names(key: string -> string, folder: string -> string,
                         various: string -> bool, compiled: string -> bool)

  /** An indexed audio file: album title ("" for a single), album artist (the
      track artist for a single), its library, and whether the file is there. */
  datatype Filed = Filed(album: string, artist: string, private: bool, onDisk: bool)

  datatype Reason = Off | Compilation | ExistingAlbum | UserChoice | ArtistFolder | Default

  predicate SameAlbum(nm: Names, f: Filed, album: string, artist: string) {
    album != "" && f.album == album && nm.key(f.artist) == nm.key(artist)
  }

  // ---- The decision ----

  /** Library of the first of the album's files that is on disk. */
  function FirstOnDisk(nm: Names, lib: seq<Filed>, album: string, artist: string): Option<bool> {
    if lib == [] then None
    else if SameAlbum(nm, lib[0], album, artist) && lib[0].onDisk then Some(lib[0].private)
    else FirstOnDisk(nm, lib[1..], album, artist)
  }

  function ExistingIsPrivate(nm: Names, on: bool, lib: seq<Filed>, album: string, artist: string): Option<bool> {
    if album == "" || artist == "" || !on then None else FirstOnDisk(nm, lib, album, artist)
  }

  /** `inFolder` says whether the artist already has a private folder. */
  function Resolve(nm: Names, on: bool, lib: seq<Filed>, album: string, artist: string,
                   choice: Option<bool>, inFolder: bool): (bool, Reason)
  {
    if !on then (false, Off)
    else if nm.various(artist) then (false, Compilation)
    else
      var existing := ExistingIsPrivate(nm, on, lib, album, artist);
      if existing.Some? then (existing.value, ExistingAlbum)
      else if choice.Some? then (choice.value, UserChoice)
      else if inFolder then (true, ArtistFolder)
      else (false, Default)
  }

  /** The album has a file on disk, in the library asked for. */
  ghost predicate AlbumIn(nm: Names, lib: seq<Filed>, album: string, artist: string, private: bool) {
    exists i :: 0 <= i < |lib| && lib[i].onDisk && lib[i].private == private
                && album != "" && lib[i].album == album && nm.key(lib[i].artist) == nm.key(artist)
  }

  lemma {:induction false} FirstOnDiskIs(nm: Names, lib: seq<Filed>, album: string, artist: string)
    ensures match FirstOnDisk(nm, lib, album, artist)
            case Some(private) => AlbumIn(nm, lib, album, artist, private)
            case None => !AlbumIn(nm, lib, album, artist, true) && !AlbumIn(nm, lib, album, artist, false)
  {
    if lib != [] && !(SameAlbum(nm, lib[0], album, artist) && lib[0].onDisk) {
      var rest := FirstOnDisk(nm, lib[1..], album, artist);
      FirstOnDiskIs(nm, lib[1..], album, artist);
      forall i | 0 < i < |lib| ensures lib[i] == lib[1..][i - 1] {}
      if rest.Some? {
        var j :| 0 <= j < |lib[1..]| && lib[1..][j].onDisk && lib[1..][j].private == rest.value
                 && album != "" && lib[1..][j].album == album && nm.key(lib[1..][j].artist) == nm.key(artist);
        assert lib[j + 1] == lib[1..][j];
      }
    }
  }

  /** The order of precedence: nothing is private while the feature is off, nor a
      compilation; else an album already on disk draws its tracks to a library
      it is in; only for an album that is in neither does the user's choice
      count; only without one does the artist's folder. */
  lemma Precedence(nm: Names, on: bool, lib: seq<Filed>, album: string, artist: string, choice: Option<bool>,
                   inFolder: bool)
    ensures var private := Resolve(nm, on, lib, album, artist, choice, inFolder).0;
            var known := AlbumIn(nm, lib, album, artist, true) || AlbumIn(nm, lib, album, artist, false);
            && (!on || nm.various(artist) ==> !private)
            && (on && !nm.various(artist) && artist != "" && known ==> AlbumIn(nm, lib, album, artist, private))
            && (on && !nm.various(artist) && (artist == "" || !known) ==>
                  private == match choice case Some(wish) => wish case None => inFolder)
  {
    FirstOnDiskIs(nm, lib, album, artist);
  }

  // ---- Runs ----

  /** An approval, a move of an artist's folders, or a file going missing. */
  datatype Step =
    | Approve(album: string, artist: string, choice: Option<bool>, inFolder: bool)
    | MoveArtist(name: string, private: bool)
    | Lose(index: nat)

  /** The file lies in a folder that moving `name` takes along. */
  predicate TakenAlong(nm: Names, f: Filed, name: string) {
    if f.album == "" then nm.folder(name) == nm.folder(f.artist) || nm.folder(name) == "Singles"
    else if nm.compiled(f.artist) then nm.folder(name) == "Compilations"
    else nm.folder(name) == nm.folder(f.artist)
  }

  function MovedOne(nm: Names, f: Filed, name: string, private: bool): Filed {
    if f.onDisk && TakenAlong(nm, f, name) then f.(private := private) else f
  }

  function MovedAll(nm: Names, lib: seq<Filed>, name: string, private: bool): seq<Filed> {
    seq(|lib|, i requires 0 <= i < |lib| => MovedOne(nm, lib[i], name, private))
  }

  function After(nm: Names, on: bool, lib: seq<Filed>, s: Step): seq<Filed> {
    match s
    case Approve(album, artist, choice, inFolder) =>
      lib + [Filed(album, artist, Resolve(nm, on, lib, album, artist, choice, inFolder).0, true)]
    case MoveArtist(name, private) => if on then MovedAll(nm, lib, name, private) else lib
    case Lose(i) => if i < |lib| then lib[i := lib[i].(onDisk := false)] else lib
  }

  function Run(nm: Names, on: bool, steps: seq<Step>): seq<Filed> {
    if steps == [] then [] else After(nm, on, Run(nm, on, steps[..|steps| - 1]), steps[|steps| - 1])
  }

  /** A file that goes missing keeps its row, and nothing else changes. */
  lemma LostFileKeepsRow(nm: Names, on: bool, lib: seq<Filed>, i: nat)
    requires i < |lib|
    ensures var after := After(nm, on, lib, Lose(i));
            && |after| == |lib| && !after[i].onDisk && after[i] == lib[i].(onDisk := false)
            && forall j :: 0 <= j < |lib| && j != i ==> after[j] == lib[j]
  {
  }

  // ---- What never happens ----

  /** No album has files on disk in both libraries. */
  ghost predicate Whole(nm: Names, lib: seq<Filed>) {
    forall i, j ::
      (0 <= i < |lib| && 0 <= j < |lib| && lib[i].onDisk && lib[j].onDisk
       && SameAlbum(nm, lib[i], lib[j].album, lib[j].artist)) ==> lib[i].private == lib[j].private
  }

  ghost predicate CompilationsShared(nm: Names, lib: seq<Filed>) {
    forall f :: f in lib && nm.various(f.artist) ==> !f.private
  }

  /** Among `names` an artist key has one spelling. */
  ghost predicate OneSpelling(nm: Names, names: set<string>) {
    forall a, b :: a in names && b in names && nm.key(a) == nm.key(b) ==> a == b
  }

  /** Approvals use the given spellings. */
  ghost predicate Sensible(names: set<string>, s: Step) {
    s.Approve? ==> s.artist in names && s.artist != ""
  }

  /** The step takes no file of a compilation artist into the private library. */
  ghost predicate Spares(nm: Names, on: bool, lib: seq<Filed>, s: Step) {
    on && s.MoveArtist? && s.private ==>
      forall f :: f in lib && f.onDisk && nm.various(f.artist) ==> !TakenAlong(nm, f, s.name)
  }

  ghost predicate SparesThroughout(nm: Names, on: bool, steps: seq<Step>) {
    steps == []
    || var front := steps[..|steps| - 1];
       SparesThroughout(nm, on, front) && Spares(nm, on, Run(nm, on, front), steps[|steps| - 1])
  }

  ghost predicate SharedThroughout(nm: Names, on: bool, steps: seq<Step>) {
    && CompilationsShared(nm, Run(nm, on, steps))
    && (steps == [] || SharedThroughout(nm, on, steps[..|steps| - 1]))
  }

  ghost predicate Inv(nm: Names, on: bool, lib: seq<Filed>, names: set<string>) {
    && Whole(nm, lib) && CompilationsShared(nm, lib)
    && (forall f :: f in lib ==> f.artist in names)
    && (!on ==> forall f :: f in lib ==> !f.private)
  }

  /** On a whole library the lookup does not depend on the order of the rows. */
  lemma {:induction false} LookupIsAnyFile(nm: Names, lib: seq<Filed>, album: string, artist: string, i: nat)
    requires Whole(nm, lib) && i < |lib| && lib[i].onDisk && SameAlbum(nm, lib[i], album, artist)
    ensures FirstOnDisk(nm, lib, album, artist) == Some(lib[i].private)
  {
    if !(SameAlbum(nm, lib[0], album, artist) && lib[0].onDisk) {
      LookupIsAnyFile(nm, lib[1..], album, artist, i - 1);
    }
  }

  /** Moving an artist keeps every album whole exactly when no album on the
      side being left has files in and outside the moved folders. */
  lemma MoveKeepsWholeIff(nm: Names, lib: seq<Filed>, name: string, private: bool)
    requires Whole(nm, lib)
    ensures Whole(nm, MovedAll(nm, lib, name, private)) <==>
      forall i, j ::
        (0 <= i < |lib| && 0 <= j < |lib| && lib[i].onDisk && lib[j].onDisk && lib[i].private != private
         && SameAlbum(nm, lib[i], lib[j].album, lib[j].artist) && TakenAlong(nm, lib[i], name))
        ==> TakenAlong(nm, lib[j], name)
  {
    var after := MovedAll(nm, lib, name, private);
    forall i | 0 <= i < |lib|
      ensures after[i] == MovedOne(nm, lib[i], name, private)
      ensures after[i].onDisk == lib[i].onDisk && after[i].album == lib[i].album && after[i].artist == lib[i].artist
    {
    }
  }

  /** An approval keeps every album whole exactly when it is a single, or the
      lookup decides, or what was decided instead is where the album already is.
      The lookup is passed over when the feature is off, and for compilation
      artists. */
  lemma ApproveKeepsWholeIff(nm: Names, on: bool, lib: seq<Filed>, album: string, artist: string,
                             choice: Option<bool>, inFolder: bool)
    requires Whole(nm, lib)
    ensures var decided := Resolve(nm, on, lib, album, artist, choice, inFolder).0;
            Whole(nm, After(nm, on, lib, Approve(album, artist, choice, inFolder))) <==>
              || album == "" || (on && !nm.various(artist) && artist != "")
              || forall i :: 0 <= i < |lib| && lib[i].onDisk && SameAlbum(nm, lib[i], album, artist)
                   ==> lib[i].private == decided
  {
    var decided := Resolve(nm, on, lib, album, artist, choice, inFolder).0;
    var added := Filed(album, artist, decided, true);
    var after := lib + [added];
    if album != "" && on && !nm.various(artist) && artist != "" {
      forall i | 0 <= i < |lib| && lib[i].onDisk && SameAlbum(nm, lib[i], album, artist)
        ensures lib[i].private == decided
      {
        LookupIsAnyFile(nm, lib, album, artist, i);
      }
    }
    AddedKeepsWholeIff(nm, lib, added);
  }

  lemma AddedKeepsWholeIff(nm: Names, lib: seq<Filed>, added: Filed)
    requires Whole(nm, lib) && added.onDisk
    ensures Whole(nm, lib + [added]) <==>
      || added.album == ""
      || forall i :: 0 <= i < |lib| && lib[i].onDisk && SameAlbum(nm, lib[i], added.album, added.artist)
           ==> lib[i].private == added.private
  {
    var after := lib + [added];
    if added.album != "" && Whole(nm, after) {
      forall i | 0 <= i < |lib| && lib[i].onDisk && SameAlbum(nm, lib[i], added.album, added.artist)
        ensures lib[i].private == added.private
      {
        assert after[i] == lib[i] && after[|lib|] == added;
      }
    }
  }

  /** Compilations stay shared under a move exactly when it is to the shared
      library or takes no compilation artist's file along. */
  lemma CompilationsSharedIff(nm: Names, lib: seq<Filed>, name: string, private: bool)
    requires CompilationsShared(nm, lib)
    ensures CompilationsShared(nm, MovedAll(nm, lib, name, private)) <==>
      !private || forall f :: f in lib && f.onDisk && nm.various(f.artist) ==> !TakenAlong(nm, f, name)
  {
    var after := MovedAll(nm, lib, name, private);
    forall i | 0 <= i < |lib| ensures after[i] == MovedOne(nm, lib[i], name, private) && after[i] in after {
    }
    if !private || forall f :: f in lib && f.onDisk && nm.various(f.artist) ==> !TakenAlong(nm, f, name) {
      forall f | f in after && nm.various(f.artist) ensures !f.private {
        var i :| 0 <= i < |lib| && after[i] == f;
        assert lib[i] in lib;
      }
    } else {
      var f :| f in lib && f.onDisk && nm.various(f.artist) && TakenAlong(nm, f, name);
      var i :| 0 <= i < |lib| && lib[i] == f;
      assert after[i].private && nm.various(after[i].artist);
    }
  }

  lemma ApprovalKeepsInv(nm: Names, on: bool, lib: seq<Filed>, names: set<string>, s: Step)
    requires Inv(nm, on, lib, names) && OneSpelling(nm, names) && Sensible(names, s) && s.Approve?
    ensures Inv(nm, on, After(nm, on, lib, s), names)
  {
    forall i | 0 <= i < |lib| && lib[i].onDisk && SameAlbum(nm, lib[i], s.album, s.artist)
      ensures lib[i].artist == s.artist && (nm.various(s.artist) || !on ==> !lib[i].private)
    {
      assert lib[i] in lib;
    }
    ApproveKeepsWholeIff(nm, on, lib, s.album, s.artist, s.choice, s.inFolder);
  }

  lemma MoveKeepsInv(nm: Names, lib: seq<Filed>, names: set<string>, name: string, private: bool)
    requires Inv(nm, true, lib, names) && OneSpelling(nm, names)
    requires Spares(nm, true, lib, MoveArtist(name, private))
    ensures Inv(nm, true, MovedAll(nm, lib, name, private), names)
  {
    var after := MovedAll(nm, lib, name, private);
    MoveKeepsWholeIff(nm, lib, name, private);
    CompilationsSharedIff(nm, lib, name, private);
    forall f | f in after ensures f.artist in names {
      var i :| 0 <= i < |lib| && after[i] == f;
      assert lib[i] in lib;
    }
    forall i, j | 0 <= i < |lib| && 0 <= j < |lib| && SameAlbum(nm, lib[i], lib[j].album, lib[j].artist)
      ensures TakenAlong(nm, lib[i], name) ==> TakenAlong(nm, lib[j], name)
    {
      assert lib[i] in lib && lib[j] in lib && lib[i].artist == lib[j].artist;
    }
  }

  lemma StepKeepsInv(nm: Names, on: bool, lib: seq<Filed>, names: set<string>, s: Step)
    requires Inv(nm, on, lib, names) && OneSpelling(nm, names) && Sensible(names, s) && Spares(nm, on, lib, s)
    ensures Inv(nm, on, After(nm, on, lib, s), names)
  {
    var after := After(nm, on, lib, s);
    match s
    case Approve(_, _, _, _) => ApprovalKeepsInv(nm, on, lib, names, s);
    case MoveArtist(name, private) => if on { MoveKeepsInv(nm, lib, names, name, private); }
    case Lose(i) =>
      forall f | f in after ensures f.artist in names && (nm.various(f.artist) ==> !f.private) && (!on ==> !f.private) {
        var k :| 0 <= k < |after| && after[k] == f;
        assert lib[k] in lib && f.artist == lib[k].artist && f.private == lib[k].private;
      }
  }

  /** Over any run with one spelling per artist, compilations are shared all
      along exactly when no move takes one into the private library; and then an
      album is in one library only. */
  lemma {:induction false} AlbumsNeverStraddle(nm: Names, on: bool, steps: seq<Step>, names: set<string>)
    requires OneSpelling(nm, names) && forall s :: s in steps ==> Sensible(names, s)
    ensures SharedThroughout(nm, on, steps) <==> SparesThroughout(nm, on, steps)
    ensures SparesThroughout(nm, on, steps) ==> Inv(nm, on, Run(nm, on, steps), names)
  {
    if steps != [] {
      var front, s := steps[..|steps| - 1], steps[|steps| - 1];
      AlbumsNeverStraddle(nm, on, front, names);
      if SparesThroughout(nm, on, front) {
        var lib := Run(nm, on, front);
        if s.MoveArtist? && on { CompilationsSharedIff(nm, lib, s.name, s.private); }
        if Spares(nm, on, lib, s) { StepKeepsInv(nm, on, lib, names, s); }
      }
    }
  }

  /** With any two spellings of one artist that name two folders, such as one
      with accents and one without, moving the artist splits an album. */
  lemma TwoSpellingsStraddle(nm: Names, a: string, b: string)
    requires nm.key(a) == nm.key(b) && nm.folder(a) != nm.folder(b)
    requires !nm.various(a) && !nm.various(b) && !nm.compiled(a) && !nm.compiled(b)
    ensures !Whole(nm, Run(nm, true, [Approve("Debut", a, None, false), Approve("Debut", b, None, false),
                                      MoveArtist(a, true)]))
  {
    var one, two, three := Approve("Debut", a, None, false), Approve("Debut", b, None, false), MoveArtist(a, true);
    var steps := [one, two, three];
    assert steps[..2] == [one, two] && steps[..2][..1] == [one] && steps[..2][..1][..0] == [];
    assert Run(nm, true, [one]) == [Filed("Debut", a, false, true)];
    assert Run(nm, true, [one, two]) == [Filed("Debut", a, false, true), Filed("Debut", b, false, true)];
    var lib := Run(nm, true, steps);
    assert lib == [Filed("Debut", a, true, true), Filed("Debut", b, false, true)];
    assert SameAlbum(nm, lib[0], lib[1].album, lib[1].artist);
  }

  /** An artist whose folder is the one of all compilations: moving it takes
      them along, and the next approval splits the album. */
  lemma CompilationsFolderStraddles(nm: Names)
    requires nm.various("Various") && nm.compiled("Various") && nm.folder("Compilations") == "Compilations"
    ensures var one, two := Approve("Hits", "Various", None, false), MoveArtist("Compilations", true);
            !CompilationsShared(nm, Run(nm, true, [one, two])) && !Whole(nm, Run(nm, true, [one, two, one]))
  {
    var one, two := Approve("Hits", "Various", None, false), MoveArtist("Compilations", true);
    var steps := [one, two, one];
    assert steps[..2] == [one, two] && [one, two][..1] == [one] && [one][..0] == [];
    assert Run(nm, true, [one]) == [Filed("Hits", "Various", false, true)];
    assert Run(nm, true, [one, two]) == [Filed("Hits", "Various", true, true)];
    assert Run(nm, true, [one, two])[0].private;
    var lib := Run(nm, true, steps);
    assert lib == [Filed("Hits", "Various", true, true), Filed("Hits", "Various", false, true)];
    assert SameAlbum(nm, lib[0], lib[1].album, lib[1].artist);
  }

  /** A compilation spelling of a private album's artist splits the album. */
  lemma CompilationSpellingStraddles(nm: Names)
    requires nm.key("Various") == nm.key("Various!") && nm.various("Various") && !nm.various("Various!")
    ensures !Whole(nm, Run(nm, true, [Approve("Hits", "Various!", Some(true), false),
                                      Approve("Hits", "Various", None, false)]))
  {
    var one, two := Approve("Hits", "Various!", Some(true), false), Approve("Hits", "Various", None, false);
    var steps := [one, two];
    assert steps[..1] == [one] && steps[..1][..0] == [];
    assert Run(nm, true, [one]) == [Filed("Hits", "Various!", true, true)];
    var lib := Run(nm, true, steps);
    assert lib == [Filed("Hits", "Various!", true, true), Filed("Hits", "Various", false, true)];
    assert SameAlbum(nm, lib[0], lib[1].album, lib[1].artist);
  }

  // ---- On the file system ----

  /** Where the layout puts a file below its library's root; `tail` is the rest
      of its path. */
  function Below(nm: Names, f: Filed, tail: Path): Path {
    if f.album == "" then ["Singles", nm.folder(f.artist)] + tail
    else if nm.compiled(f.artist) then ["Compilations"] + tail
    else [nm.folder(f.artist)] + tail
  }

  function Where(nm: Names, base: Path, sub: string, f: Filed, tail: Path): Path {
    SourceRoot(base, sub, !f.private) + Below(nm, f, tail)
  }

  /** The private folder is not one of the layout's own names, nor an artist's;
      no album artist is named like the folder of all singles. */
  predicate Placeable(nm: Names, sub: string, f: Filed, tail: Path) {
    && tail != [] && sub != "Singles" && sub != "Compilations" && nm.folder(f.artist) != sub
    && (f.album != "" && !nm.compiled(f.artist) ==> nm.folder(f.artist) != "Singles")
  }

  /** A file's path tells its library. */
  lemma PathTellsLibrary(nm: Names, base: Path, sub: string, f: Filed, tail: Path)
    requires Placeable(nm, sub, f, tail)
    ensures PrivateRoot(base, sub) < Where(nm, base, sub, f, tail) <==> f.private
  {
    var p := Where(nm, base, sub, f, tail);
    assert PrivateRoot(base, sub)[|base|] == sub;
    if f.private {
      assert p[..|base| + 1] == PrivateRoot(base, sub);
    } else {
      assert p[|base|] == Below(nm, f, tail)[0] != sub;
    }
  }

  lemma UnderFolder(root: Path, below: Path, artist: string)
    requires |below| >= 2
    ensures AlbumsOf(root, artist) < root + below <==> below[0] == artist
    ensures |below| >= 3 ==> (SinglesOf(root, artist) < root + below <==> below[0] == "Singles" && below[1] == artist)
    ensures |below| == 2 ==> !(SinglesOf(root, artist) < root + below)
  {
    var p := root + below;
    assert p[|root|] == below[0] && p[|root| + 1] == below[1];
    if below[0] == artist { assert p[..|root| + 1] == AlbumsOf(root, artist); }
    if |below| >= 3 && below[0] == "Singles" && below[1] == artist {
      assert p[..|root| + 2] == SinglesOf(root, artist);
    }
    if SinglesOf(root, artist) < p {
      assert p[|root|] == SinglesOf(root, artist)[|root|] && p[|root| + 1] == SinglesOf(root, artist)[|root| + 1];
    }
  }

  /** A file of the other library is in neither folder. */
  lemma OtherLibraryApart(nm: Names, base: Path, sub: string, f: Filed, tail: Path, artist: string, private: bool)
    requires Placeable(nm, sub, f, tail) && artist != sub && f.private == private
    ensures var from, p := SourceRoot(base, sub, private), Where(nm, base, sub, f, tail);
            !(AlbumsOf(from, artist) < p) && !(SinglesOf(from, artist) < p)
  {
    var from, p := SourceRoot(base, sub, private), Where(nm, base, sub, f, tail);
    var below := Below(nm, f, tail);
    if private {
      assert p[|base|] == sub;
      Apart(AlbumsOf(from, artist), p, |base|);
      Apart(SinglesOf(from, artist), p, |base|);
    } else {
      assert p[|base|] == below[0] != sub;
      Apart(AlbumsOf(from, artist), p, |base|);
      Apart(SinglesOf(from, artist), p, |base|);
    }
  }

  /** Which files the artist's two folders hold, and where they go. */
  lemma FoldersHoldTakenAlong(nm: Names, base: Path, sub: string, f: Filed, tail: Path, name: string, private: bool)
    requires Placeable(nm, sub, f, tail) && nm.folder(name) != sub
    ensures var from, to := SourceRoot(base, sub, private), SourceRoot(base, sub, !private);
            var artist, p := nm.folder(name), Where(nm, base, sub, f, tail);
            && (AlbumsOf(from, artist) < p || SinglesOf(from, artist) < p
                <==> f.private != private && TakenAlong(nm, f, name))
            && Across(from, to, artist, p)
               == Where(nm, base, sub, if TakenAlong(nm, f, name) then f.(private := private) else f, tail)
  {
    var from, to := SourceRoot(base, sub, private), SourceRoot(base, sub, !private);
    var artist, p, below := nm.folder(name), Where(nm, base, sub, f, tail), Below(nm, f, tail);
    if f.private == private {
      OtherLibraryApart(nm, base, sub, f, tail, artist, private);
    } else {
      UnderFolder(from, below, artist);
      AcrossBelow(from, to, artist, below);
    }
  }

  lemma AcrossBelow(from: Path, to: Path, artist: string, below: Path)
    ensures var p := from + below;
            Across(from, to, artist, p)
            == if AlbumsOf(from, artist) < p || SinglesOf(from, artist) < p then to + below else p
  {
    var p := from + below;
    if AlbumsOf(from, artist) < p {
      assert below == [artist] + below[1..] by { assert p[|from|] == artist == below[0]; }
      assert p[|AlbumsOf(from, artist)|..] == below[1..];
    } else if SinglesOf(from, artist) < p {
      assert below == ["Singles", artist] + below[2..] by {
        assert p[|from|] == "Singles" == below[0] && p[|from| + 1] == artist == below[1];
      }
      assert p[|SinglesOf(from, artist)|..] == below[2..];
    }
  }

  /** The index rows of the files on disk. */
  function RowsOf(nm: Names, base: Path, sub: string, lib: seq<Filed>, tails: seq<Path>): Rows
    requires |tails| == |lib|
  {
    map i | 0 <= i < |lib| && lib[i].onDisk :: Where(nm, base, sub, lib[i], tails[i])
  }

  /** Every file on disk has its row. */
  lemma RowOf(nm: Names, base: Path, sub: string, lib: seq<Filed>, tails: seq<Path>, i: nat)
    requires |tails| == |lib|
    ensures i in RowsOf(nm, base, sub, lib, tails) <==> i < |lib| && lib[i].onDisk
  {
  }

  ghost predicate InFolders(from: Path, artist: string, p: Path) {
    AlbumsOf(from, artist) < p || SinglesOf(from, artist) < p
  }

  lemma RowFollows(nm: Names, base: Path, sub: string, f: Filed, tail: Path, may: set<Path>, name: string,
                   private: bool)
    requires Placeable(nm, sub, f, tail) && nm.folder(name) != sub && f.onDisk
    requires var from, p := SourceRoot(base, sub, private), Where(nm, base, sub, f, tail);
             p in may <==> InFolders(from, nm.folder(name), p)
    ensures var from, to := SourceRoot(base, sub, private), SourceRoot(base, sub, !private);
            var p := Where(nm, base, sub, f, tail);
            (if p in may then Across(from, to, nm.folder(name), p) else p)
            == Where(nm, base, sub, MovedOne(nm, f, name, private), tail)
  {
    FoldersHoldTakenAlong(nm, base, sub, f, tail, name, private);
  }

  /** Nothing is in the way: every indexed file of the two folders may cross. */
  ghost predicate NoCollision(rows: Rows, may: set<Path>, from: Path, artist: string) {
    forall id :: id in rows ==> (rows[id] in may <==> InFolders(from, artist, rows[id]))
  }

  ghost predicate AllPlaceable(nm: Names, sub: string, lib: seq<Filed>, tails: seq<Path>) {
    |tails| == |lib| && forall i :: 0 <= i < |lib| ==> Placeable(nm, sub, lib[i], tails[i])
  }

  /** Where a row's path goes. */
  function Goes(may: set<Path>, from: Path, to: Path, artist: string, p: Path): Path {
    if p in may then Across(from, to, artist, p) else p
  }

  /** One row's path follows its file. */
  lemma IndexedRowFollows(nm: Names, base: Path, sub: string, lib: seq<Filed>, tails: seq<Path>, may: set<Path>,
                          name: string, private: bool, i: nat)
    requires AllPlaceable(nm, sub, lib, tails) && i in RowsOf(nm, base, sub, lib, tails) && nm.folder(name) != sub
    requires NoCollision(RowsOf(nm, base, sub, lib, tails), may, SourceRoot(base, sub, private), nm.folder(name))
    ensures var from, to := SourceRoot(base, sub, private), SourceRoot(base, sub, !private);
            var after := RowsOf(nm, base, sub, MovedAll(nm, lib, name, private), tails);
            i in after && Goes(may, from, to, nm.folder(name), RowsOf(nm, base, sub, lib, tails)[i]) == after[i]
  {
    RowsAfterMove(nm, base, sub, lib, tails, name, private);
    RowFollows(nm, base, sub, lib[i], tails[i], may, name, private);
  }

  ghost predicate EachGoes(rows: Rows, goal: Rows, may: set<Path>, from: Path, to: Path, artist: string) {
    goal.Keys == rows.Keys && forall i :: i in rows ==> i in goal && Goes(may, from, to, artist, rows[i]) == goal[i]
  }

  lemma IndexedRowsFollow(nm: Names, base: Path, sub: string, lib: seq<Filed>, tails: seq<Path>, may: set<Path>,
                          name: string, private: bool)
    requires AllPlaceable(nm, sub, lib, tails) && nm.folder(name) != sub
    requires NoCollision(RowsOf(nm, base, sub, lib, tails), may, SourceRoot(base, sub, private), nm.folder(name))
    ensures EachGoes(RowsOf(nm, base, sub, lib, tails), RowsOf(nm, base, sub, MovedAll(nm, lib, name, private), tails),
                     may, SourceRoot(base, sub, private), SourceRoot(base, sub, !private), nm.folder(name))
  {
    RowsAfterMove(nm, base, sub, lib, tails, name, private);
    var rows, goal := RowsOf(nm, base, sub, lib, tails), RowsOf(nm, base, sub, MovedAll(nm, lib, name, private), tails);
    var from, to, artist := SourceRoot(base, sub, private), SourceRoot(base, sub, !private), nm.folder(name);
    forall i | i in rows ensures i in goal && Goes(may, from, to, artist, rows[i]) == goal[i] {
      IndexedRowFollows(nm, base, sub, lib, tails, may, name, private, i);
    }
  }

  lemma MovedIsGoal(rows: Rows, goal: Rows, files: Files, dirs: set<Path>, from: Path, to: Path, artist: string)
    requires EachGoes(rows, goal, MayCross(files, dirs, from, to, artist), from, to, artist)
    ensures Moved(rows, files, dirs, from, to, artist) == goal
  {
    MovedIsPointwise(rows, files, dirs, from, to, artist);
    SameRows(Moved(rows, files, dirs, from, to, artist), goal);
  }

  /** Moving an artist's folders, when nothing is in the way, rewrites the rows'
      paths to where the layout puts the files in their new library. */
  lemma FoldersMoveIsMovedAll(nm: Names, base: Path, sub: string, lib: seq<Filed>, tails: seq<Path>,
                              files: Files, dirs: set<Path>, name: string, private: bool)
    requires AllPlaceable(nm, sub, lib, tails) && nm.folder(name) != sub
    requires var from, to := SourceRoot(base, sub, private), SourceRoot(base, sub, !private);
             NoCollision(RowsOf(nm, base, sub, lib, tails), MayCross(files, dirs, from, to, nm.folder(name)),
                         from, nm.folder(name))
    ensures var from, to := SourceRoot(base, sub, private), SourceRoot(base, sub, !private);
            Moved(RowsOf(nm, base, sub, lib, tails), files, dirs, from, to, nm.folder(name))
            == RowsOf(nm, base, sub, MovedAll(nm, lib, name, private), tails)
  {
    var from, to, artist := SourceRoot(base, sub, private), SourceRoot(base, sub, !private), nm.folder(name);
    IndexedRowsFollow(nm, base, sub, lib, tails, MayCross(files, dirs, from, to, artist), name, private);
    MovedIsGoal(RowsOf(nm, base, sub, lib, tails), RowsOf(nm, base, sub, MovedAll(nm, lib, name, private), tails),
                files, dirs, from, to, artist);
  }

  lemma SameRows(a: Rows, b: Rows)
    requires a.Keys == b.Keys && forall id :: id in a ==> a[id] == b[id]
    ensures a == b
  {
  }

  lemma RowsAfterMove(nm: Names, base: Path, sub: string, lib: seq<Filed>, tails: seq<Path>, name: string,
                      private: bool)
    requires |tails| == |lib|
    ensures var rows := RowsOf(nm, base, sub, lib, tails);
            var after := RowsOf(nm, base, sub, MovedAll(nm, lib, name, private), tails);
            && after.Keys == rows.Keys
            && forall i :: i in rows ==>
                 i < |lib| && lib[i].onDisk && rows[i] == Where(nm, base, sub, lib[i], tails[i])
                 && after[i] == Where(nm, base, sub, MovedOne(nm, lib[i], name, private), tails[i])
  {
  }

  lemma MovedIsPointwise(rows: Rows, files: Files, dirs: set<Path>, from: Path, to: Path, artist: string)
    ensures var may, after := MayCross(files, dirs, from, to, artist), Moved(rows, files, dirs, from, to, artist);
            after.Keys == rows.Keys && forall id :: id in rows ==>
              after[id] == if rows[id] in may then Across(from, to, artist, rows[id]) else rows[id]
  {
  }
}
