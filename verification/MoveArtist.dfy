/** Moving an artist between the shared and the private library, and keeping
    the index paths true while the folders move. */
module MoveArtist {
  import opened Prelude
  import opened TreeMerge
  import opened ArtistFolders

  datatype Outcome = NotConfigured | Failed | Done(moved: nat, collisions: nat, reindexed: nat)

  /** One of the artist's folders cannot be merged into the other library. */
  ghost predicate AnyClash(files: Files, dirs: set<Path>, from: Path, to: Path, artist: string) {
    || Clashes(files, dirs, AlbumsOf(from, artist), AlbumsOf(to, artist))
    || Clashes(files, dirs, SinglesOf(from, artist), SinglesOf(to, artist))
  }

  /** The folder is there and its rows cannot all be rewritten. */
  ghost predicate StumblesOn(rows: Rows, dirs: set<Path>, src: Path) {
    src in dirs && Strays(rows, src)
  }

  /** So it is at one of the artist's folders; `f1` and `d1` are the tree between
      the two, when the first one's rows have been rewritten. */
  ghost predicate Stumbles(rows0: Rows, d0: set<Path>, f1: Files, d1: set<Path>, from: Path, to: Path, artist: string) {
    || StumblesOn(rows0, d0, AlbumsOf(from, artist))
    || StumblesOn(FolderRows(rows0, d0, f1, d1, AlbumsOf(from, artist), AlbumsOf(to, artist)), d1,
                  SinglesOf(from, artist))
  }

  /** The index after a move that went through, true before or not: each folder's
      rows are rewritten in turn, and counted; `f1` and `d1` are the tree between. */
  ghost predicate RowsRewritten(rows0: Rows, f0: Files, d0: set<Path>, f1: Files, d1: set<Path>,
                                rows: Rows, f: Files, d: set<Path>, reindexed: nat,
                                from: Path, to: Path, artist: string)
  {
    var mid := FolderRows(rows0, d0, f1, d1, AlbumsOf(from, artist), AlbumsOf(to, artist));
    && TwoFoldersMoved(f0, d0, f1, d1, f, d, from, to, artist)
    && rows == RowsBoth(rows0, d0, f1, d1, f, d, from, to, artist)
    && reindexed == |Changed(rows0, mid)| + |Changed(mid, rows)|
  }

  ghost predicate TwoFoldersMoved(f0: Files, d0: set<Path>, f1: Files, d1: set<Path>, f: Files, d: set<Path>,
                                  from: Path, to: Path, artist: string)
  {
    var albums, albums' := AlbumsOf(from, artist), AlbumsOf(to, artist);
    var singles, singles' := SinglesOf(from, artist), SinglesOf(to, artist);
    && FolderMoved(f0, d0, f1, d1, from, albums, albums', Movable(f0, d0, albums, albums'))
    && FolderMoved(f1, d1, f, d, from, singles, singles', Movable(f1, d1, singles, singles'))
  }

  /** The counters of a move that went through. */
  ghost predicate Counted(f0: Files, d0: set<Path>, r: Outcome, from: Path, to: Path, artist: string)
    requires r.Done?
  {
    && r.moved == |Movable(f0, d0, AlbumsOf(from, artist), AlbumsOf(to, artist))|
                  + |Movable(f0, d0, SinglesOf(from, artist), SinglesOf(to, artist))|
    && r.moved + r.collisions
       == |FilesUnder(f0, AlbumsOf(from, artist))| + |FilesUnder(f0, SinglesOf(from, artist))|
  }

  /** A true index after a move that went through: it stays true, about the same
      files, with just the paths that crossed rewritten. */
  ghost predicate StaysTrue(rows0: Rows, f0: Files, d0: set<Path>, rows: Rows, f: Files,
                            from: Path, to: Path, artist: string)
  {
    Truthful(rows0, f0) ==>
      && rows == Moved(rows0, f0, d0, from, to, artist)
      && Truthful(rows, f) && SameFiles(rows0, f0, rows, f)
  }

  /** A move that went through: every file that may cross did. */
  ghost predicate MovedAcross(rows0: Rows, f0: Files, d0: set<Path>, f1: Files, d1: set<Path>,
                              rows: Rows, f: Files, d: set<Path>, r: Outcome,
                              from: Path, to: Path, artist: string, gone: set<Path>)
    requires r.Done?
  {
    && gone == MayCross(f0, d0, from, to, artist)
    && Elsewhere(rows0, rows, from, artist)
    && RowsRewritten(rows0, f0, d0, f1, d1, rows, f, d, r.reindexed, from, to, artist)
    && StaysTrue(rows0, f0, d0, rows, f, from, to, artist)
    && (artist != "Singles" ==> Counted(f0, d0, r, from, to, artist))
  }

  /** A move that failed: the rows are as before, and the index is true exactly
      when none of its files crossed; they did if only the second folder failed. */
  ghost predicate RolledBack(rows0: Rows, f0: Files, d0: set<Path>, rows: Rows, f: Files,
                             from: Path, to: Path, artist: string, gone: set<Path>)
  {
    && rows == rows0
    && (Truthful(rows0, f0) ==> (Truthful(rows, f) <==> forall id :: id in rows ==> rows[id] !in gone))
    && (!Clashes(f0, d0, AlbumsOf(from, artist), AlbumsOf(to, artist)) ==>
          Movable(f0, d0, AlbumsOf(from, artist), AlbumsOf(to, artist)) <= gone)
  }

  /** It goes through exactly when no folder clashes at the outset and no row is
      mistaken for one of theirs; audio is conserved in every case. */
  ghost predicate Transferred(rows0: Rows, f0: Files, d0: set<Path>, f1: Files, d1: set<Path>,
                              rows: Rows, f: Files, d: set<Path>, r: Outcome,
                              from: Path, to: Path, artist: string, gone: set<Path>)
  {
    && !r.NotConfigured?
    && (r.Done? <==> !AnyClash(f0, d0, from, to, artist) && !Stumbles(rows0, d0, f1, d1, from, to, artist))
    && FirstMoved(f0, d0, f1, d1, from, to, artist)
    && Conserved(f0, f) && Crossed(f0, f, from, to, artist, gone)
    && (r.Done? ==> MovedAcross(rows0, f0, d0, f1, d1, rows, f, d, r, from, to, artist, gone))
    && (!r.Done? ==> RolledBack(rows0, f0, d0, rows, f, from, to, artist, gone))
  }

  /** The tree between: the first folder has moved unless it clashed. */
  ghost predicate FirstMoved(f0: Files, d0: set<Path>, f1: Files, d1: set<Path>, from: Path, to: Path, artist: string) {
    var albums, albums' := AlbumsOf(from, artist), AlbumsOf(to, artist);
    !Clashes(f0, d0, albums, albums') ==>
      FolderMoved(f0, d0, f1, d1, from, albums, albums', Movable(f0, d0, albums, albums'))
  }

  /** Singles, private folder and artist differ in more than case. */
  ghost predicate NoVariants(sub: string, artist: string) {
    Folded(sub) != Folded("Singles") && Folded(artist) != Folded("Singles") && Folded(artist) != Folded(sub)
  }

  /** Unless the names involved are case variants of each other, a move goes
      through exactly when, at the outset, no folder clashes and no row lies
      under a case variant of a folder that is there. */
  lemma GoesThroughIff(rows0: Rows, f0: Files, d0: set<Path>, f1: Files, d1: set<Path>,
                       rows: Rows, f: Files, d: set<Path>, r: Outcome,
                       base: Path, sub: string, artist: string, private: bool, gone: set<Path>)
    requires Wf(f0, d0) && NoVariants(sub, artist)
    requires Transferred(rows0, f0, d0, f1, d1, rows, f, d, r,
                         SourceRoot(base, sub, private), SourceRoot(base, sub, !private), artist, gone)
    ensures var from, to := SourceRoot(base, sub, private), SourceRoot(base, sub, !private);
            r.Done? <==>
              && !AnyClash(f0, d0, from, to, artist)
              && !StumblesOn(rows0, d0, AlbumsOf(from, artist)) && !StumblesOn(rows0, d0, SinglesOf(from, artist))
  {
    var from, to := SourceRoot(base, sub, private), SourceRoot(base, sub, !private);
    LibrariesSeparate(base, sub, artist);
    FoldersUnlike(base, sub, artist, private);
    if !Clashes(f0, d0, AlbumsOf(from, artist), AlbumsOf(to, artist)) {
      SecondStumbles(rows0, f0, d0, f1, d1, from, to, artist);
    }
  }

  lemma FoldersUnlike(base: Path, sub: string, artist: string, private: bool)
    requires NoVariants(sub, artist)
    ensures var from, to := SourceRoot(base, sub, private), SourceRoot(base, sub, !private);
            && Unlike(AlbumsOf(from, artist), SinglesOf(from, artist))
            && Unlike(AlbumsOf(to, artist), SinglesOf(from, artist))
  {
    var from, to := SourceRoot(base, sub, private), SourceRoot(base, sub, !private);
    assert AlbumsOf(from, artist)[|from|] == artist && SinglesOf(from, artist)[|from|] == "Singles";
    assert AlbumsOf(to, artist)[|base|] == (if private then sub else artist);
    assert SinglesOf(from, artist)[|base|] == (if private then "Singles" else sub);
  }

  /** The first folder's move makes no difference to whether the second stumbles. */
  lemma SecondStumbles(rows0: Rows, f0: Files, d0: set<Path>, f1: Files, d1: set<Path>,
                       from: Path, to: Path, artist: string)
    requires Separate(from, to, artist) && FirstMoved(f0, d0, f1, d1, from, to, artist)
    requires !Clashes(f0, d0, AlbumsOf(from, artist), AlbumsOf(to, artist))
    requires Unlike(AlbumsOf(from, artist), SinglesOf(from, artist))
    requires Unlike(AlbumsOf(to, artist), SinglesOf(from, artist))
    ensures var mid := FolderRows(rows0, d0, f1, d1, AlbumsOf(from, artist), AlbumsOf(to, artist));
            StumblesOn(mid, d1, SinglesOf(from, artist)) <==> StumblesOn(rows0, d0, SinglesOf(from, artist))
  {
    var albums, albums', singles := AlbumsOf(from, artist), AlbumsOf(to, artist), SinglesOf(from, artist);
    var mid := FolderRows(rows0, d0, f1, d1, albums, albums');
    var k :| 0 <= k < |albums| && k < |singles| && Folded(albums[k]) != Folded(singles[k]);
    assert !(albums <= singles);
    assert singles in d1 <==> singles in d0;
    forall id | id in rows0 ensures Alike(singles, mid[id]) || Alike(singles, rows0[id]) ==> mid[id] == rows0[id] {
      if mid[id] != rows0[id] {
        MirrorBack(albums, albums', rows0[id]);
        UnlikeBelow(albums, singles, rows0[id]);
        UnlikeBelow(albums', singles, mid[id]);
      }
    }
    assert mid.Keys == rows0.Keys;
  }

  // ---- An input on which the index goes stale ----

  /** An album file, a single, and in the private library a file where the
      singles folder would go. */
  function BlockedFiles(): Files {
    map[["A", "album", "1.flac"] := 1, ["Singles", "A", "2.flac"] := 2, ["private", "Singles", "A"] := 3]
  }

  function BlockedDirs(): set<Path> {
    {[], ["A"], ["A", "album"], ["Singles"], ["Singles", "A"], ["private"], ["private", "Singles"]}
  }

  lemma BlockedIsATree()
    ensures Wf(BlockedFiles(), BlockedDirs())
  {
    forall p | Exists(BlockedFiles(), BlockedDirs(), p) && p != [] ensures Parent(p) in BlockedDirs() {
      assert Parent(["A", "album", "1.flac"]) == ["A", "album"] && Parent(["A", "album"]) == ["A"];
      assert Parent(["Singles", "A", "2.flac"]) == ["Singles", "A"] && Parent(["Singles", "A"]) == ["Singles"];
      assert Parent(["private", "Singles", "A"]) == ["private", "Singles"];
      assert Parent(["private", "Singles"]) == ["private"];
      assert Parent(["A"]) == [] && Parent(["Singles"]) == [] && Parent(["private"]) == [];
    }
  }

  lemma AlbumsAreFree()
    ensures !Clashes(BlockedFiles(), BlockedDirs(), ["A"], ["private", "A"])
    ensures ["A", "album", "1.flac"] in Movable(BlockedFiles(), BlockedDirs(), ["A"], ["private", "A"])
  {
    forall p | ["private", "A"] <= p ensures !Exists(BlockedFiles(), BlockedDirs(), p) {
      assert |p| >= 2 && p[0] == "private" && p[1] == "A";
      assert |"A"| == 1 && |"album"| == 5 && |"Singles"| == |"private"| == 7 && "Singles"[0] != "private"[0];
    }
    forall p | ["A"] <= p ensures !Exists(BlockedFiles(), BlockedDirs(), Mirror(["A"], ["private", "A"], p)) {
      MirrorBack(["A"], ["private", "A"], p);
    }
    assert ["A"] < ["A", "album", "1.flac"];
  }

  lemma SinglesAreBlocked()
    ensures Clashes(BlockedFiles(), BlockedDirs(), ["Singles", "A"], ["private", "Singles", "A"])
  {
    var src, dst: Path := ["Singles", "A"], ["private", "Singles", "A"];
    assert src in BlockedDirs() && src <= src && Mirror(src, dst, src) == dst && dst in BlockedFiles();
    assert Exists(BlockedFiles(), BlockedDirs(), ["Singles", "A", "2.flac"]) && src < ["Singles", "A", "2.flac"];
  }

  /** A row of the first folder, when that does not clash and yet the move fails. */
  lemma RolledBackIsStale(rows0: Rows, f0: Files, d0: set<Path>, f1: Files, d1: set<Path>,
                          rows: Rows, f: Files, d: set<Path>, r: Outcome,
                          from: Path, to: Path, artist: string, gone: set<Path>, id: RowId)
    requires Transferred(rows0, f0, d0, f1, d1, rows, f, d, r, from, to, artist, gone)
    requires Truthful(rows0, f0) && id in rows0
    requires Clashes(f0, d0, SinglesOf(from, artist), SinglesOf(to, artist))
             || StumblesOn(rows0, d0, AlbumsOf(from, artist))
    requires !Clashes(f0, d0, AlbumsOf(from, artist), AlbumsOf(to, artist))
    requires rows0[id] in Movable(f0, d0, AlbumsOf(from, artist), AlbumsOf(to, artist))
    ensures r.Failed? && rows == rows0 && !Truthful(rows, f)
  {
    assert rows0[id] in gone;
  }

  /** On it any such move fails and leaves a true index false: the album file
      has moved, its row has been rolled back. */
  lemma FailedMoveGoesStale(f1: Files, d1: set<Path>, rows: Rows, f: Files, d: set<Path>, r: Outcome, gone: set<Path>)
    requires Transferred(map[0 := ["A", "album", "1.flac"]], BlockedFiles(), BlockedDirs(), f1, d1, rows, f, d, r,
                         [], ["private"], "A", gone)
    ensures Wf(BlockedFiles(), BlockedDirs()) && Truthful(map[0 := ["A", "album", "1.flac"]], BlockedFiles())
    ensures r.Failed? && rows == map[0 := ["A", "album", "1.flac"]] && !Truthful(rows, f)
  {
    BlockedIsATree();
    AlbumsAreFree();
    SinglesAreBlocked();
    BlockedFolders();
    RolledBackIsStale(map[0 := ["A", "album", "1.flac"]], BlockedFiles(), BlockedDirs(), f1, d1, rows, f, d, r,
                      [], ["private"], "A", gone, 0);
  }

  lemma BlockedFolders()
    ensures AlbumsOf([], "A") == ["A"] && AlbumsOf(["private"], "A") == ["private", "A"]
    ensures SinglesOf([], "A") == ["Singles", "A"] && SinglesOf(["private"], "A") == ["private", "Singles", "A"]
  {
  }

  /** Two artists whose names differ in case only, each with one file. */
  function NamesakeFiles(): Files {
    map[["Abba", "1.flac"] := 1, ["ABBA", "1.flac"] := 2]
  }

  function NamesakeDirs(): set<Path> {
    {[], ["Abba"], ["ABBA"], ["private"]}
  }

  function NamesakeRows(): Rows {
    map[0 := ["Abba", "1.flac"], 1 := ["ABBA", "1.flac"]]
  }

  lemma NamesakesAreFree()
    ensures Wf(NamesakeFiles(), NamesakeDirs()) && Truthful(NamesakeRows(), NamesakeFiles())
    ensures !Clashes(NamesakeFiles(), NamesakeDirs(), ["Abba"], ["private", "Abba"])
    ensures ["Abba", "1.flac"] in Movable(NamesakeFiles(), NamesakeDirs(), ["Abba"], ["private", "Abba"])
  {
    assert "Abba"[1] != "ABBA"[1] && ["Abba"][0] != ["ABBA"][0];
    assert Parent(["Abba", "1.flac"]) == ["Abba"] && Parent(["ABBA", "1.flac"]) == ["ABBA"];
    assert Parent(["Abba"]) == Parent(["ABBA"]) == Parent(["private"]) == [];
    assert ["Abba", "1.flac"][0] != ["ABBA", "1.flac"][0];
    forall p | ["private", "Abba"] <= p ensures !Exists(NamesakeFiles(), NamesakeDirs(), p) {
      assert |p| >= 2 && p[0] == "private" && |"private"| != |"Abba"| == |"ABBA"|;
    }
    forall p | ["Abba"] <= p
      ensures !Exists(NamesakeFiles(), NamesakeDirs(), Mirror(["Abba"], ["private", "Abba"], p))
    {
      MirrorBack(["Abba"], ["private", "Abba"], p);
    }
    assert ["Abba"] < ["Abba", "1.flac"];
  }

  lemma NamesakeStumbles()
    ensures StumblesOn(NamesakeRows(), NamesakeDirs(), ["Abba"])
  {
    var src, p: Path := ["Abba"], ["ABBA", "1.flac"];
    assert Folded("Abba") == "abba" == Folded("ABBA");
    assert p[0] == "ABBA" && "ABBA"[1] != "Abba"[1];
    assert Alike(src, p) && !(src < p) && NamesakeRows()[1] == p;
  }

  /** Moving one of them takes its file across, stumbles over the other's row
      and leaves its own row naming a path that is gone. */
  lemma NamesakeGoesStale(f1: Files, d1: set<Path>, rows: Rows, f: Files, d: set<Path>, r: Outcome, gone: set<Path>)
    requires Transferred(NamesakeRows(), NamesakeFiles(), NamesakeDirs(), f1, d1, rows, f, d, r,
                         [], ["private"], "Abba", gone)
    ensures Truthful(NamesakeRows(), NamesakeFiles())
    ensures r.Failed? && rows == NamesakeRows() && !Truthful(rows, f)
  {
    NamesakesAreFree();
    NamesakeStumbles();
    assert AlbumsOf([], "Abba") == ["Abba"] && AlbumsOf(["private"], "Abba") == ["private", "Abba"];
    RolledBackIsStale(NamesakeRows(), NamesakeFiles(), NamesakeDirs(), f1, d1, rows, f, d, r,
                      [], ["private"], "Abba", gone, 0);
  }

  // ---- Moving both folders ----

  lemma FilesTransferred(f0: Files, f1: Files, f: Files, from: Path, to: Path, artist: string,
                         done1: set<Path>, done2: set<Path>)
    requires Separate(from, to, artist)
    requires Relocated(f0, f1, AlbumsOf(from, artist), AlbumsOf(to, artist), done1)
    requires Relocated(f1, f, SinglesOf(from, artist), SinglesOf(to, artist), done2)
    ensures Conserved(f0, f) && Crossed(f0, f, from, to, artist, done1 + done2)
  {
    BothCrossed(f0, f1, f, from, to, artist, done1, done2);
    RelocationConserves(f0, f1, AlbumsOf(from, artist), AlbumsOf(to, artist), done1);
    RelocationConserves(f1, f, SinglesOf(from, artist), SinglesOf(to, artist), done2);
  }

  /** What the two merges did to the tree: the first went through unless it
      clashed; both did exactly if neither clashed nor stumbled in its turn. */
  ghost predicate FilesAttempted(rows0: Rows, f0: Files, d0: set<Path>, f1: Files, d1: set<Path>, f: Files,
                                 d: set<Path>, ok: bool, from: Path, to: Path, artist: string,
                                 done1: set<Path>, done2: set<Path>)
  {
    && Relocated(f0, f1, AlbumsOf(from, artist), AlbumsOf(to, artist), done1)
    && Relocated(f1, f, SinglesOf(from, artist), SinglesOf(to, artist), done2)
    && (!Clashes(f0, d0, AlbumsOf(from, artist), AlbumsOf(to, artist)) ==>
          FolderMoved(f0, d0, f1, d1, from, AlbumsOf(from, artist), AlbumsOf(to, artist), done1))
    && (ok <==> && !Clashes(f0, d0, AlbumsOf(from, artist), AlbumsOf(to, artist))
                && !Clashes(f1, d1, SinglesOf(from, artist), SinglesOf(to, artist))
                && !Stumbles(rows0, d0, f1, d1, from, to, artist))
    && (ok ==> FolderMoved(f1, d1, f, d, from, SinglesOf(from, artist), SinglesOf(to, artist), done2))
  }

  lemma FirstFails(rows0: Rows, f0: Files, d0: set<Path>, f1: Files, d1: set<Path>, from: Path, to: Path,
                   artist: string, done1: set<Path>)
    requires Clashes(f0, d0, AlbumsOf(from, artist), AlbumsOf(to, artist))
             || StumblesOn(rows0, d0, AlbumsOf(from, artist))
    requires Relocated(f0, f1, AlbumsOf(from, artist), AlbumsOf(to, artist), done1)
    requires !Clashes(f0, d0, AlbumsOf(from, artist), AlbumsOf(to, artist)) ==>
               FolderMoved(f0, d0, f1, d1, from, AlbumsOf(from, artist), AlbumsOf(to, artist), done1)
    ensures FilesAttempted(rows0, f0, d0, f1, d1, f1, d1, false, from, to, artist, done1, {})
  {
    NothingRelocated(f1, SinglesOf(from, artist), SinglesOf(to, artist));
  }

  lemma SecondDecides(rows0: Rows, f0: Files, d0: set<Path>, f1: Files, d1: set<Path>, f: Files, d: set<Path>,
                      ok: bool, from: Path, to: Path, artist: string, done1: set<Path>, done2: set<Path>)
    requires !Clashes(f0, d0, AlbumsOf(from, artist), AlbumsOf(to, artist))
    requires !StumblesOn(rows0, d0, AlbumsOf(from, artist))
    requires FolderMoved(f0, d0, f1, d1, from, AlbumsOf(from, artist), AlbumsOf(to, artist), done1)
    requires Relocated(f1, f, SinglesOf(from, artist), SinglesOf(to, artist), done2)
    requires var mid := FolderRows(rows0, d0, f1, d1, AlbumsOf(from, artist), AlbumsOf(to, artist));
             ok <==> !Clashes(f1, d1, SinglesOf(from, artist), SinglesOf(to, artist))
                     && !StumblesOn(mid, d1, SinglesOf(from, artist))
    requires !Clashes(f1, d1, SinglesOf(from, artist), SinglesOf(to, artist)) ==>
               FolderMoved(f1, d1, f, d, from, SinglesOf(from, artist), SinglesOf(to, artist), done2)
    ensures FilesAttempted(rows0, f0, d0, f1, d1, f, d, ok, from, to, artist, done1, done2)
    ensures ok ==> TwoFoldersMoved(f0, d0, f1, d1, f, d, from, to, artist)
  {
  }

  lemma AttemptDecides(rows0: Rows, f0: Files, d0: set<Path>, f1: Files, d1: set<Path>, f: Files, d: set<Path>,
                       ok: bool, from: Path, to: Path, artist: string, done1: set<Path>, done2: set<Path>)
    requires Wf(f0, d0) && Separate(from, to, artist)
    requires FilesAttempted(rows0, f0, d0, f1, d1, f, d, ok, from, to, artist, done1, done2)
    ensures ok <==> !AnyClash(f0, d0, from, to, artist) && !Stumbles(rows0, d0, f1, d1, from, to, artist)
    ensures FirstMoved(f0, d0, f1, d1, from, to, artist)
    ensures Conserved(f0, f) && Crossed(f0, f, from, to, artist, done1 + done2)
  {
    FilesTransferred(f0, f1, f, from, to, artist, done1, done2);
    if !Clashes(f0, d0, AlbumsOf(from, artist), AlbumsOf(to, artist)) {
      SecondFolder(f0, d0, f1, d1, from, to, artist, done1);
    }
  }

  /** The counters as the two folders' turns leave them. */
  ghost predicate Tallied(f0: Files, f1: Files, moved: nat, collisions: nat, from: Path, artist: string,
                          done1: set<Path>, done2: set<Path>)
  {
    && moved == |done1| + |done2|
    && collisions == |FilesUnder(f0, AlbumsOf(from, artist)) - done1|
                     + |FilesUnder(f1, SinglesOf(from, artist)) - done2|
  }

  lemma CountersAddUp(f0: Files, d0: set<Path>, f1: Files, d1: set<Path>, r: Outcome,
                      from: Path, to: Path, artist: string, done1: set<Path>, done2: set<Path>)
    requires Wf(f0, d0) && Separate(from, to, artist) && r.Done? && artist != "Singles"
    requires FolderMoved(f0, d0, f1, d1, from, AlbumsOf(from, artist), AlbumsOf(to, artist), done1)
    requires !Clashes(f0, d0, AlbumsOf(from, artist), AlbumsOf(to, artist))
    requires done2 == Movable(f1, d1, SinglesOf(from, artist), SinglesOf(to, artist))
    requires Tallied(f0, f1, r.moved, r.collisions, from, artist, done1, done2)
    ensures Counted(f0, d0, r, from, to, artist)
  {
    SecondFolder(f0, d0, f1, d1, from, to, artist, done1);
    LeftCount(f0, AlbumsOf(from, artist), done1);
    LeftCount(f0, SinglesOf(from, artist), done2);
  }

  lemma SameFilesThen(r0: Rows, f0: Files, r1: Rows, f1: Files, r2: Rows, f2: Files)
    requires Truthful(r0, f0) && Truthful(r1, f1) && Truthful(r2, f2)
    requires SameFiles(r0, f0, r1, f1) && SameFiles(r1, f1, r2, f2)
    ensures SameFiles(r0, f0, r2, f2)
  {
  }

  /** On a true index the two rewritings follow the files. */
  lemma RowsFollow(rows0: Rows, f0: Files, d0: set<Path>, f1: Files, d1: set<Path>, f: Files, d: set<Path>,
                   from: Path, to: Path, artist: string, done1: set<Path>, done2: set<Path>)
    requires Wf(f0, d0) && Wf(f1, d1) && Separate(from, to, artist) && Truthful(rows0, f0)
    requires FolderMoved(f0, d0, f1, d1, from, AlbumsOf(from, artist), AlbumsOf(to, artist), done1)
    requires FolderMoved(f1, d1, f, d, from, SinglesOf(from, artist), SinglesOf(to, artist), done2)
    ensures var rows := RowsBoth(rows0, d0, f1, d1, f, d, from, to, artist);
            && rows == FollowedBoth(rows0, from, to, artist, done1, done2)
            && Truthful(rows, f) && SameFiles(rows0, f0, rows, f)
  {
    var mid := FolderRows(rows0, d0, f1, d1, AlbumsOf(from, artist), AlbumsOf(to, artist));
    FolderRowsFollow(rows0, f0, d0, f1, d1, from, AlbumsOf(from, artist), AlbumsOf(to, artist), done1);
    FollowingStaysTruthful(rows0, f0, f1, AlbumsOf(from, artist), AlbumsOf(to, artist), done1);
    FolderRowsFollow(mid, f1, d1, f, d, from, SinglesOf(from, artist), SinglesOf(to, artist), done2);
    FollowingStaysTruthful(mid, f1, f, SinglesOf(from, artist), SinglesOf(to, artist), done2);
    SameFilesThen(rows0, f0, mid, f1, RowsBoth(rows0, d0, f1, d1, f, d, from, to, artist), f);
  }

  lemma TruthKept(rows0: Rows, f0: Files, d0: set<Path>, f1: Files, d1: set<Path>, f: Files, d: set<Path>,
                  from: Path, to: Path, artist: string, done1: set<Path>, done2: set<Path>)
    requires Wf(f0, d0) && Wf(f1, d1) && Separate(from, to, artist)
    requires FolderMoved(f0, d0, f1, d1, from, AlbumsOf(from, artist), AlbumsOf(to, artist), done1)
    requires FolderMoved(f1, d1, f, d, from, SinglesOf(from, artist), SinglesOf(to, artist), done2)
    requires !Clashes(f0, d0, AlbumsOf(from, artist), AlbumsOf(to, artist))
    ensures StaysTrue(rows0, f0, d0, RowsBoth(rows0, d0, f1, d1, f, d, from, to, artist), f, from, to, artist)
  {
    if Truthful(rows0, f0) {
      RowsFollow(rows0, f0, d0, f1, d1, f, d, from, to, artist, done1, done2);
      CrossedRows(rows0, f0, d0, f1, d1, f, d, from, to, artist, done1, done2);
    }
  }

  /** The outcome of two merges that went through. */
  lemma DoneMoves(rows0: Rows, f0: Files, d0: set<Path>, f1: Files, d1: set<Path>, rows: Rows, f: Files, d: set<Path>,
                  r: Outcome, from: Path, to: Path, artist: string, done1: set<Path>, done2: set<Path>)
    requires Wf(f0, d0) && Wf(f1, d1) && Separate(from, to, artist) && r.Done?
    requires FilesAttempted(rows0, f0, d0, f1, d1, f, d, true, from, to, artist, done1, done2)
    requires Tallied(f0, f1, r.moved, r.collisions, from, artist, done1, done2)
    requires RowsRewritten(rows0, f0, d0, f1, d1, rows, f, d, r.reindexed, from, to, artist)
    ensures Transferred(rows0, f0, d0, f1, d1, rows, f, d, r, from, to, artist, done1 + done2)
  {
    AttemptDecides(rows0, f0, d0, f1, d1, f, d, true, from, to, artist, done1, done2);
    AllMayCross(f0, d0, f1, d1, f, d, from, to, artist, done1, done2);
    RowsBothElsewhere(rows0, d0, f1, d1, f, d, from, to, artist);
    TruthKept(rows0, f0, d0, f1, d1, f, d, from, to, artist, done1, done2);
    if artist != "Singles" { CountersAddUp(f0, d0, f1, d1, r, from, to, artist, done1, done2); }
  }

  /** The outcome of a merge that failed. */
  lemma FailureRollsBack(rows0: Rows, f0: Files, d0: set<Path>, f1: Files, d1: set<Path>, f: Files, d: set<Path>,
                         from: Path, to: Path, artist: string, done1: set<Path>, done2: set<Path>)
    requires Wf(f0, d0) && Separate(from, to, artist)
    requires FilesAttempted(rows0, f0, d0, f1, d1, f, d, false, from, to, artist, done1, done2)
    ensures Transferred(rows0, f0, d0, f1, d1, rows0, f, d, Failed, from, to, artist, done1 + done2)
  {
    AttemptDecides(rows0, f0, d0, f1, d1, f, d, false, from, to, artist, done1, done2);
    if Truthful(rows0, f0) { StaleIff(rows0, f0, f, from, to, artist, done1 + done2); }
  }

  /** No folder strictly between the two is there and empty. */
  ghost predicate Pruned(files: Files, dirs: set<Path>, root: Path, src: Path) {
    forall d :: root < d && d < src && d in dirs ==> Children(files, dirs, d) != {}
  }

  lemma PrunedFrom(files: Files, dirs: set<Path>, root: Path, src: Path, parent: Path)
    requires root <= parent && parent < src && (parent != root ==> parent in dirs)
    requires parent != root ==> Children(files, dirs, parent) != {}
    requires forall d :: parent < d && d < src ==> d !in dirs
    ensures Pruned(files, dirs, root, src)
  {
    forall d | root < d && d < src && d in dirs ensures Children(files, dirs, d) != {} {
      PrefixesCompare(d, parent, src);
      if d < parent { assert parent[|d|] in Children(files, dirs, d); }
    }
  }

  lemma PrefixesCompare(d: Path, p: Path, src: Path)
    requires d <= src && p <= src
    ensures d < p || p < d || d == p
  {
    if |d| <= |p| { assert d == src[..|d|] == p[..|d|]; } else { assert p == src[..|p|] == d[..|p|]; }
  }

  class ArtistMover {
    const fs: FileSystem
    var rows: Rows

    constructor (fs: FileSystem, rows: Rows)
      ensures this.fs == fs && this.rows == rows
    {
      this.fs, this.rows := fs, rows;
    }

    /** Rewrites the rows under `src` whose file is now at the mirrored path only;
        raises at a row that the query returns and that is not under `src`. */
    method Repoint(src: Path, dst: Path) returns (ok: bool, reindexed: nat)
      modifies this
      ensures ok <==> !Strays(old(rows), src)
      ensures ok ==> rows == Repointed(old(rows), fs.files, fs.dirs, src, dst)
      ensures ok ==> reindexed == |Changed(old(rows), rows)|
    {
      ghost var rows0 := rows;
      reindexed := 0;
      var todo := AlikeRows(rows, src);
      RepointStart(rows, fs.files, fs.dirs, src, dst, todo);
      while todo != {}
        invariant rows == RepointedBut(rows0, fs.files, fs.dirs, src, dst, todo)
        invariant todo <= AlikeRows(rows0, src) && reindexed == |Changed(rows0, rows)|
        invariant UnderSoFar(rows0, src, todo)
        decreases todo
      {
        var id :| id in todo;
        if !(src < rows[id]) { return false, reindexed; }
        var changed := RepointRow(src, dst, id, rows0, todo);
        reindexed := reindexed + if changed then 1 else 0;
        todo := todo - {id};
      }
      AllUnder(rows0, src);
      ok := true;
    }

    /** One row below the folder. */
    method RepointRow(src: Path, dst: Path, id: RowId, ghost rows0: Rows, ghost todo: set<RowId>)
      returns (changed: bool)
      requires id in todo && todo <= AlikeRows(rows0, src) && src < rows0[id]
      requires rows == RepointedBut(rows0, fs.files, fs.dirs, src, dst, todo)
      modifies this
      ensures rows == RepointedBut(rows0, fs.files, fs.dirs, src, dst, todo - {id})
      ensures |Changed(rows0, rows)| == |Changed(rows0, old(rows))| + if changed then 1 else 0
    {
      RepointStep(rows0, fs.files, fs.dirs, src, dst, todo, id);
      var oldPath := rows[id];
      var newPath := Mirror(src, dst, oldPath);
      changed := Exists(fs.files, fs.dirs, newPath) && !Exists(fs.files, fs.dirs, oldPath);
      if changed { rows := rows[id := newPath]; }
    }

    /** Removes the folders above `src` that the move left empty, up to the roots. */
    method PruneParents(src: Path, srcRoot: Path, base: Path)
      requires Wf(fs.files, fs.dirs) && srcRoot < src
      modifies fs
      ensures Wf(fs.files, fs.dirs) && fs.files == old(fs.files)
      ensures fs.dirs <= old(fs.dirs) && forall d :: d in old(fs.dirs) && d !in fs.dirs ==> srcRoot < d && d < src
      ensures Parent(src) in old(fs.dirs) && base <= srcRoot ==> Pruned(fs.files, fs.dirs, srcRoot, src)
    {
      var parent := Parent(src);
      while parent != srcRoot && parent != base && parent in fs.dirs && Children(fs.files, fs.dirs, parent) == {}
        invariant Wf(fs.files, fs.dirs) && fs.files == old(fs.files) && srcRoot <= parent < src
        invariant fs.dirs <= old(fs.dirs) && forall d :: d in old(fs.dirs) && d !in fs.dirs ==> srcRoot < d && d < src
        invariant Parent(src) in old(fs.dirs) ==> parent in fs.dirs
        invariant forall d :: parent < d && d < src ==> d !in fs.dirs
        decreases |parent|
      {
        PrefixCases(srcRoot, parent);
        assert srcRoot < parent && parent < src;
        RemovingEmptyKeepsWf(fs.files, fs.dirs, parent);
        ghost var above := Parent(parent);
        forall d | d in fs.dirs && above < d && d < src ensures d == parent { PrefixesCompare(d, parent, src); }
        fs.dirs := fs.dirs - {parent};
        parent := Parent(parent);
      }
      if Parent(src) in old(fs.dirs) && base <= srcRoot {
        PrunedFrom(fs.files, fs.dirs, srcRoot, src, parent);
      }
    }

    /** One of the artist's two folders. `ok` is false when the merge itself
        failed or a row was in the way. */
    method MoveFolder(src: Path, dst: Path, srcRoot: Path, base: Path)
      returns (ok: bool, moved: nat, collisions: nat, reindexed: nat, ghost done: set<Path>)
      requires Wf(fs.files, fs.dirs) && Disjoint(src, dst) && srcRoot < src && base <= srcRoot
      modifies this, fs
      ensures Wf(fs.files, fs.dirs) && Relocated(old(fs.files), fs.files, src, dst, done)
      ensures ok <==> !Clashes(old(fs.files), old(fs.dirs), src, dst) && !StumblesOn(old(rows), old(fs.dirs), src)
      ensures !Clashes(old(fs.files), old(fs.dirs), src, dst) ==>
                FolderMoved(old(fs.files), old(fs.dirs), fs.files, fs.dirs, srcRoot, src, dst, done)
      ensures ok ==> moved == |done| && collisions == |FilesUnder(old(fs.files), src) - done|
      ensures ok && src in old(fs.dirs) ==> Pruned(fs.files, fs.dirs, srcRoot, src)
      ensures !ok ==> forall x :: x in old(fs.dirs) && !(src <= x) ==> x in fs.dirs
      ensures ok ==> rows == FolderRows(old(rows), old(fs.dirs), fs.files, fs.dirs, src, dst)
      ensures ok ==> reindexed == |Changed(old(rows), rows)|
    {
      if src !in fs.dirs {
        NoFolderNoFiles(fs.files, fs.dirs, src, dst);
        NothingRelocated(fs.files, src, dst);
        assert Changed(rows, rows) == {};
        return true, 0, 0, 0, {};
      }
      ok, moved, collisions, done := fs.MergeTree(src, dst);
      reindexed := 0;
      if !ok { return; }
      ok, reindexed := Repoint(src, dst);
      if !ok { return; }
      ghost var merged := fs.dirs;
      PruneParents(src, srcRoot, base);
      PruningKeepsRepoint(old(rows), fs.files, merged, fs.dirs, src, dst);
    }

    /** Both folders in turn; false when one did not go through. `f1` and `d1`
        are the tree between the two. */
    method MoveBoth(base: Path, from: Path, to: Path, artist: string)
      returns (ok: bool, moved: nat, collisions: nat, reindexed: nat, ghost f1: Files, ghost d1: set<Path>,
               ghost done1: set<Path>, ghost done2: set<Path>)
      requires Wf(fs.files, fs.dirs) && Separate(from, to, artist) && base <= from
      modifies this, fs
      ensures Wf(fs.files, fs.dirs) && Wf(f1, d1)
      ensures FilesAttempted(old(rows), old(fs.files), old(fs.dirs), f1, d1, fs.files, fs.dirs, ok, from, to, artist,
                             done1, done2)
      ensures ok && SinglesOf(from, artist) in d1 ==> Pruned(fs.files, fs.dirs, from, SinglesOf(from, artist))
      ensures ok ==> Tallied(old(fs.files), f1, moved, collisions, from, artist, done1, done2)
      ensures ok ==> RowsRewritten(old(rows), old(fs.files), old(fs.dirs), f1, d1, rows, fs.files, fs.dirs, reindexed,
                                   from, to, artist)
    {
      ok, moved, collisions, reindexed, done1 := MoveFolder(AlbumsOf(from, artist), AlbumsOf(to, artist), from, base);
      f1, d1 := fs.files, fs.dirs;
      if !ok {
        done2 := {};
        FirstFails(old(rows), old(fs.files), old(fs.dirs), f1, d1, from, to, artist, done1);
        return;
      }
      var m, c, n;
      ok, m, c, n, done2 := MoveFolder(SinglesOf(from, artist), SinglesOf(to, artist), from, base);
      SecondDecides(old(rows), old(fs.files), old(fs.dirs), f1, d1, fs.files, fs.dirs, ok, from, to, artist,
                    done1, done2);
      moved, collisions, reindexed := moved + m, collisions + c, reindexed + n;
    }

    /** Both folders as one transaction: a failure rolls the row changes back; the
        files in `gone` stay moved. */
    method Transfer(base: Path, from: Path, to: Path, artist: string)
      returns (r: Outcome, ghost gone: set<Path>, ghost f1: Files, ghost d1: set<Path>)
      requires Wf(fs.files, fs.dirs) && Separate(from, to, artist) && base <= from
      modifies this, fs
      ensures Wf(fs.files, fs.dirs)
      ensures r.Done? && SinglesOf(from, artist) in d1 ==>
                Pruned(fs.files, fs.dirs, from, SinglesOf(from, artist))
      ensures Transferred(old(rows), old(fs.files), old(fs.dirs), f1, d1, rows, fs.files, fs.dirs, r, from, to, artist,
                          gone)
    {
      var rows0 := rows;
      ghost var f0, d0 := fs.files, fs.dirs;
      var ok, moved, collisions, reindexed;
      ghost var done1, done2;
      ok, moved, collisions, reindexed, f1, d1, done1, done2 := MoveBoth(base, from, to, artist);
      gone := done1 + done2;
      if ok {
        r := Done(moved, collisions, reindexed);
        DoneMoves(rows0, f0, d0, f1, d1, rows, fs.files, fs.dirs, r, from, to, artist, done1, done2);
      } else {
        rows, r := rows0, Failed;
        FailureRollsBack(rows0, f0, d0, f1, d1, fs.files, fs.dirs, from, to, artist, done1, done2);
      }
    }

    /** Moves the artist's album folder and singles folder to the other library
        and rewrites the index. */
    method Move(base: Path, subdir: Option<string>, artist: string, private: bool)
      returns (r: Outcome, ghost gone: set<Path>, ghost f1: Files, ghost d1: set<Path>)
      requires Wf(fs.files, fs.dirs)
      requires subdir.Some? ==> subdir.value != "Singles" && artist != subdir.value
      modifies this, fs
      ensures Wf(fs.files, fs.dirs)
      ensures r.NotConfigured? <==> subdir.None?
      ensures r.Done? ==>
                var singles := SinglesOf(SourceRoot(base, subdir.value, private), artist);
                singles in d1 ==> Pruned(fs.files, fs.dirs, SourceRoot(base, subdir.value, private), singles)
      ensures r.NotConfigured? ==> rows == old(rows) && fs.files == old(fs.files) && fs.dirs == old(fs.dirs)
      ensures subdir.Some? ==>
        Transferred(old(rows), old(fs.files), old(fs.dirs), f1, d1, rows, fs.files, fs.dirs, r,
                    SourceRoot(base, subdir.value, private), SourceRoot(base, subdir.value, !private), artist, gone)
    {
      if subdir.None? { return NotConfigured, {}, map[], {}; }
      LibrariesSeparate(base, subdir.value, artist);
      r, gone, f1, d1 :=
        Transfer(base, SourceRoot(base, subdir.value, private), SourceRoot(base, subdir.value, !private), artist);
    }
  }
}
