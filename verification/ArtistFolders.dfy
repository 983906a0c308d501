/** An artist's two folders and the index paths under them: what moving the
    folders to the other library does to both. */
module ArtistFolders {
  import opened Prelude
  import opened TreeMerge

  type RowId = nat

  /** The path column of the track-file rows. */
  type Rows = map<RowId, Path>

  /** Every indexed path exists and no two rows share one. */
  ghost predicate Truthful(rows: Rows, files: Files) {
    && (forall id :: id in rows ==> rows[id] in files)
    && (forall i, j :: i in rows && j in rows && rows[i] == rows[j] ==> i == j)
  }

  ghost predicate SameFiles(rows0: Rows, files0: Files, rows: Rows, files: Files)
    requires Truthful(rows0, files0) && Truthful(rows, files)
  {
    rows.Keys == rows0.Keys && forall id :: id in rows ==> files[rows[id]] == files0[rows0[id]]
  }

  /** The same audio files, however they are spread over paths. */
  ghost predicate Conserved(files0: Files, files: Files) {
    files.Values == files0.Values && |files| == |files0|
  }

  function NewPath(files: Files, dirs: set<Path>, src: Path, dst: Path, p: Path): Path {
    if src < p && Exists(files, dirs, Mirror(src, dst, p)) && !Exists(files, dirs, p) then Mirror(src, dst, p) else p
  }

  /** What the row-rewriting loop does to the index. */
  function Repointed(rows: Rows, files: Files, dirs: set<Path>, src: Path, dst: Path): Rows {
    map id | id in rows :: NewPath(files, dirs, src, dst, rows[id])
  }

  /** A row changes exactly if it lies under the folder, its own path is gone and
      the mirrored one is there; a row whose file is in neither place stays. */
  lemma RepointedIs(rows: Rows, files: Files, dirs: set<Path>, src: Path, dst: Path, id: RowId)
    requires id in rows && Disjoint(src, dst)
    ensures var p, after := rows[id], Repointed(rows, files, dirs, src, dst);
            id in after &&
            if src < p && p !in files && p !in dirs && (dst + p[|src|..] in files || dst + p[|src|..] in dirs)
            then after[id] == dst + p[|src|..] && after[id] != p
            else after[id] == p
  {
    if src < rows[id] { MirrorBack(src, dst, rows[id]); }
  }

  ghost function Followed(rows: Rows, src: Path, dst: Path, done: set<Path>): Rows
    requires forall p :: p in done ==> src < p
  {
    map id | id in rows :: if rows[id] in done then Mirror(src, dst, rows[id]) else rows[id]
  }

  ghost function Changed(rows0: Rows, rows: Rows): set<RowId> {
    set id | id in rows0 && id in rows && rows[id] != rows0[id]
  }

  // ---- The rows a prefix match returns ----

  function LowerChar(c: char): char {
    if 'A' <= c <= 'Z' then c + 32 as char else c
  }

  /** ASCII letters in lower case. */
  function Folded(s: string): string {
    seq(|s|, i requires 0 <= i < |s| => LowerChar(s[i]))
  }

  /** SQLite's LIKE ignores ASCII case: p is below src, case aside. */
  predicate Alike(src: Path, p: Path) {
    |src| < |p| && forall i :: 0 <= i < |src| ==> Folded(p[i]) == Folded(src[i])
  }

  /** Some folder of the same depth above p is spelled like src, case aside. */
  lemma AlikeIff(src: Path, p: Path)
    ensures Alike(src, p) <==>
      exists q :: |q| == |src| && q < p && forall i :: 0 <= i < |src| ==> Folded(q[i]) == Folded(src[i])
  {
    if Alike(src, p) {
      var q := p[..|src|];
      assert |q| == |src| && q < p;
    }
  }

  lemma LetterFolds(i: nat)
    requires i < 26
    ensures LowerChar('A' + i as char) == LowerChar('a' + i as char) == 'a' + i as char
  {
  }

  /** The match returns a row that is not below the folder. */
  predicate Strays(rows: Rows, src: Path) {
    exists id :: id in rows && Alike(src, rows[id]) && !(src < rows[id])
  }

  function AlikeRows(rows: Rows, src: Path): set<RowId> {
    set id | id in rows && Alike(src, rows[id])
  }

  /** The rows dealt with so far are all below the folder. */
  predicate UnderSoFar(rows: Rows, src: Path, todo: set<RowId>) {
    forall id :: id in rows && Alike(src, rows[id]) && id !in todo ==> src < rows[id]
  }

  lemma AllUnder(rows: Rows, src: Path)
    requires UnderSoFar(rows, src, {})
    ensures !Strays(rows, src)
  {
  }

  /** Nothing is below both folders, case aside. */
  ghost predicate Unlike(p: Path, q: Path) {
    exists k :: 0 <= k < |p| && k < |q| && Folded(p[k]) != Folded(q[k])
  }

  lemma UnlikeBelow(p: Path, q: Path, x: Path)
    requires Unlike(p, q) && p < x
    ensures !Alike(q, x)
  {
    var k :| 0 <= k < |p| && k < |q| && Folded(p[k]) != Folded(q[k]);
    assert x[k] == p[k];
  }

  // ---- Rewriting them ----

  ghost function RepointedBut(rows: Rows, files: Files, dirs: set<Path>, src: Path, dst: Path, todo: set<RowId>): Rows {
    map id | id in rows :: if id in todo then rows[id] else NewPath(files, dirs, src, dst, rows[id])
  }

  lemma RepointStart(rows: Rows, files: Files, dirs: set<Path>, src: Path, dst: Path, todo: set<RowId>)
    requires todo == AlikeRows(rows, src)
    ensures RepointedBut(rows, files, dirs, src, dst, todo) == rows && Changed(rows, rows) == {}
  {
    forall id | id in rows && src < rows[id] ensures id in todo {}
  }

  lemma RepointStep(rows: Rows, files: Files, dirs: set<Path>, src: Path, dst: Path, todo: set<RowId>, id: RowId)
    requires id in todo && todo <= AlikeRows(rows, src) && src < rows[id]
    ensures var r, p := RepointedBut(rows, files, dirs, src, dst, todo), NewPath(files, dirs, src, dst, rows[id]);
            && RepointedBut(rows, files, dirs, src, dst, todo - {id}) == r[id := p]
            && (p == rows[id] ==> r[id := p] == r)
            && |Changed(rows, r[id := p])| == |Changed(rows, r)| + (if p == rows[id] then 0 else 1)
  {
    var r, p := RepointedBut(rows, files, dirs, src, dst, todo), NewPath(files, dirs, src, dst, rows[id]);
    assert r[id] == rows[id] && r.Keys == rows.Keys;
    OneMoreChanged(rows, r, id, p);
  }

  lemma OneMoreChanged(rows: Rows, r: Rows, id: RowId, p: Path)
    requires id in rows && id in r && r[id] == rows[id]
    ensures p == rows[id] ==> r[id := p] == r
    ensures |Changed(rows, r[id := p])| == |Changed(rows, r)| + (if p == rows[id] then 0 else 1)
  {
    if p == rows[id] {
      assert r[id := p] == r;
    } else {
      assert id !in Changed(rows, r);
      assert Changed(rows, r[id := p]) == Changed(rows, r) + {id};
    }
  }

  // ---- One folder ----

  lemma RelocationKeepsCount(a: Files, b: Files, src: Path, dst: Path, done: set<Path>)
    requires Relocated(a, b, src, dst, done)
    ensures |b| == |a|
  {
    MirrorCount(src, dst, done);
    assert (a.Keys - done) !! Mirrors(src, dst, done);
    assert |b.Keys| == |a.Keys - done| + |Mirrors(src, dst, done)|;
    assert a.Keys == (a.Keys - done) + done;
  }

  lemma RelocationConserves(a: Files, b: Files, src: Path, dst: Path, done: set<Path>)
    requires Relocated(a, b, src, dst, done)
    ensures Conserved(a, b)
  {
    RelocationKeepsCount(a, b, src, dst, done);
    forall p | p in a ensures a[p] in b.Values {
      assert if p in done then b[Mirror(src, dst, p)] == a[p] else b[p] == a[p];
    }
    forall q | q in b ensures b[q] in a.Values {
      if q in Mirrors(src, dst, done) {
        var p :| p in done && Mirror(src, dst, p) == q;
        assert a[p] == b[q];
      } else {
        assert a[q] == b[q];
      }
    }
  }

  lemma FollowingStaysTruthful(rows: Rows, a: Files, b: Files, src: Path, dst: Path, done: set<Path>)
    requires Relocated(a, b, src, dst, done) && Truthful(rows, a)
    ensures Truthful(Followed(rows, src, dst, done), b)
    ensures SameFiles(rows, a, Followed(rows, src, dst, done), b)
  {
    var after := Followed(rows, src, dst, done);
    forall i, j | i in after && j in after && after[i] == after[j] ensures i == j {
      if rows[i] in done && rows[j] in done { MirrorInjective(src, dst, rows[i], rows[j]); }
    }
  }

  /** The rows after one folder's turn: nothing is rewritten if it is not there. */
  function FolderRows(rows: Rows, dirs0: set<Path>, files: Files, dirs: set<Path>, src: Path, dst: Path): Rows {
    if src in dirs0 then Repointed(rows, files, dirs, src, dst) else rows
  }

  /** A folder that is not there leaves its rows alone, even where their files are
      in the other library: moving again does not mend a stale index. */
  lemma AbsentFolderLeavesRows(rows: Rows, dirs0: set<Path>, files: Files, dirs: set<Path>, src: Path, dst: Path)
    requires src !in dirs0
    ensures FolderRows(rows, dirs0, files, dirs, src, dst) == rows
  {
  }

  /** Folders pruned above the source make no difference to the rows. */
  lemma PruningKeepsRepoint(rows: Rows, files: Files, d: set<Path>, pruned: set<Path>, src: Path, dst: Path)
    requires Disjoint(src, dst) && pruned <= d && forall x :: x in d && x !in pruned ==> x < src
    ensures Repointed(rows, files, d, src, dst) == Repointed(rows, files, pruned, src, dst)
  {
    forall p | src < p
      ensures (p in d <==> p in pruned) && (Mirror(src, dst, p) in d <==> Mirror(src, dst, p) in pruned)
    {
      MirrorBack(src, dst, p);
      assert Mirror(src, dst, p) < src ==> dst <= src;
    }
  }

  lemma NoFolderNoFiles(files: Files, dirs: set<Path>, src: Path, dst: Path)
    requires Wf(files, dirs) && src !in dirs
    ensures FilesUnder(files, src) == {} && Movable(files, dirs, src, dst) == {}
  {
    forall p | p in files ensures !(src < p) {
      if src < p { AboveIsDir(files, dirs, p, src); }
    }
  }

  // ---- Both folders ----

  function PrivateRoot(base: Path, sub: string): Path {
    base + [sub]
  }

  function SourceRoot(base: Path, sub: string, private: bool): Path {
    if private then base else PrivateRoot(base, sub)
  }

  /** The artist's album folder and singles folder under a root. */
  function AlbumsOf(root: Path, artist: string): Path {
    root + [artist]
  }

  function SinglesOf(root: Path, artist: string): Path {
    root + ["Singles", artist]
  }

  lemma Apart(p: Path, q: Path, k: nat)
    requires k < |p| && k < |q| && p[k] != q[k]
    ensures Disjoint(p, q)
  {
  }

  /** No folder of the one library lies in the artist's folders of the other. */
  ghost predicate Separate(from: Path, to: Path, artist: string) {
    && Disjoint(AlbumsOf(from, artist), AlbumsOf(to, artist))
    && Disjoint(SinglesOf(from, artist), SinglesOf(to, artist))
    && Disjoint(AlbumsOf(from, artist), SinglesOf(to, artist))
    && Disjoint(AlbumsOf(to, artist), SinglesOf(from, artist))
  }

  lemma LibrariesSeparate(base: Path, sub: string, artist: string)
    requires sub != "Singles" && artist != sub
    ensures Separate(base, PrivateRoot(base, sub), artist) && Separate(PrivateRoot(base, sub), base, artist)
  {
    var root := PrivateRoot(base, sub);
    Apart(AlbumsOf(base, artist), AlbumsOf(root, artist), |base|);
    Apart(SinglesOf(base, artist), SinglesOf(root, artist), |base|);
    Apart(AlbumsOf(base, artist), SinglesOf(root, artist), |base|);
    Apart(AlbumsOf(root, artist), SinglesOf(base, artist), |base|);
  }

  /** The folder is there and its merge would fail. */
  ghost predicate Clashes(files: Files, dirs: set<Path>, src: Path, dst: Path) {
    src in dirs && Clash(files, dirs, src, dst)
  }

  /** One folder's merge went through, and the folders above it were pruned. */
  ghost predicate FolderMoved(f0: Files, d0: set<Path>, f: Files, d: set<Path>, root: Path,
                              src: Path, dst: Path, done: set<Path>)
  {
    && Relocated(f0, f, src, dst, done) && done == Movable(f0, d0, src, dst)
    && (forall x :: x in d0 && !(src <= x) && !(root < x && x < src) ==> x in d)
    && (forall x :: x in d && !(dst <= x) ==> x in d0 || x < dst)
  }

  lemma OutsideStays(f0: Files, f: Files, src: Path, dst: Path, done: set<Path>, p: Path)
    requires Relocated(f0, f, src, dst, done) && !(src <= p) && !(dst <= p)
    ensures (p in f <==> p in f0) && (p in f0 ==> f[p] == f0[p])
  {
    forall q | q in done ensures Mirror(src, dst, q) != p { MirrorBack(src, dst, q); }
  }

  /** Seen from another pair of folders, nothing changed. */
  lemma OtherPairStays(f0: Files, d0: set<Path>, f: Files, d: set<Path>, root: Path,
                       src1: Path, dst1: Path, src2: Path, dst2: Path, done: set<Path>)
    requires FolderMoved(f0, d0, f, d, root, src1, dst1, done) && |src1| == |root| + 1
    requires Disjoint(src1, src2) && Disjoint(src1, dst2) && Disjoint(dst1, src2) && Disjoint(dst1, dst2)
    ensures SameUnder(f0, d0, f, d, src2) && SameUnder(f0, d0, f, d, dst2)
    ensures forall p :: p < dst2 ==> (p in f <==> p in f0)
  {
    forall p | src2 <= p || dst2 <= p
      ensures (p in f <==> p in f0) && (p in f0 ==> f[p] == f0[p]) && (p in d <==> p in d0)
    {
      var top := if src2 <= p then src2 else dst2;
      DisjointUnder(src1, top, p);
      DisjointUnder(dst1, top, p);
      OutsideStays(f0, f, src1, dst1, done, p);
      assert p < dst1 ==> top <= dst1;
    }
    forall p | p < dst2 ensures p in f <==> p in f0 {
      assert src1 <= p ==> src1 <= dst2;
      assert dst1 <= p ==> dst1 <= dst2;
      OutsideStays(f0, f, src1, dst1, done, p);
    }
  }

  /** So it can move as before, and clashes as before. */
  lemma OtherPairUntouched(f0: Files, d0: set<Path>, f: Files, d: set<Path>, root: Path,
                           src1: Path, dst1: Path, src2: Path, dst2: Path, done: set<Path>)
    requires FolderMoved(f0, d0, f, d, root, src1, dst1, done) && |src1| == |root| + 1
    requires Disjoint(src1, src2) && Disjoint(src1, dst2) && Disjoint(dst1, src2) && Disjoint(dst1, dst2)
    ensures FilesUnder(f, src2) == FilesUnder(f0, src2) && Movable(f, d, src2, dst2) == Movable(f0, d0, src2, dst2)
    ensures Clashes(f, d, src2, dst2) <==> Clashes(f0, d0, src2, dst2)
  {
    OtherPairStays(f0, d0, f, d, root, src1, dst1, src2, dst2, done);
    assert src2 <= src2;
    SameClash(f0, d0, f, d, src2, dst2);
    SameClash(f, d, f0, d0, src2, dst2);
    forall p | src2 <= p ensures dst2 <= Mirror(src2, dst2, p) { MirrorBack(src2, dst2, p); }
  }

  lemma SameClash(f0: Files, d0: set<Path>, f: Files, d: set<Path>, src: Path, dst: Path)
    requires SameUnder(f0, d0, f, d, src) && SameUnder(f0, d0, f, d, dst)
    requires forall p :: p < dst ==> (p in f <==> p in f0)
    ensures Clash(f0, d0, src, dst) ==> Clash(f, d, src, dst)
  {
    if x, c :| x in d0 && src <= x && Mirror(src, dst, x) in f0 && Exists(f0, d0, c) && x < c {
      MirrorBack(src, dst, x);
      assert src <= c && Exists(f, d, c) && x in d && Mirror(src, dst, x) in f;
    } else if p :| p < dst && p in f0 {
      assert p in f;
    }
  }

  /** A moved file's old place stays empty. */
  lemma OldPlaceIsEmpty(f0: Files, d0: set<Path>, f: Files, d: set<Path>, root: Path, src: Path, dst: Path,
                        done: set<Path>, p: Path)
    requires Wf(f0, d0) && Disjoint(src, dst) && FolderMoved(f0, d0, f, d, root, src, dst, done) && p in done
    ensures !Exists(f, d, p)
  {
    DisjointUnder(src, dst, p);
    forall q | q in done ensures Mirror(src, dst, q) != p { MirrorBack(src, dst, q); }
    assert p < dst ==> src <= dst;
  }

  /** On a true index the row rewriting follows exactly the files that moved. */
  lemma FolderRowsFollow(rows: Rows, f0: Files, d0: set<Path>, f: Files, d: set<Path>, root: Path,
                         src: Path, dst: Path, done: set<Path>)
    requires Wf(f0, d0) && Disjoint(src, dst) && FolderMoved(f0, d0, f, d, root, src, dst, done)
    requires Truthful(rows, f0)
    ensures FolderRows(rows, d0, f, d, src, dst) == Followed(rows, src, dst, done)
  {
    if src !in d0 { NoFolderNoFiles(f0, d0, src, dst); }
    forall id | id in rows
      ensures NewPath(f, d, src, dst, rows[id]) == if rows[id] in done then Mirror(src, dst, rows[id]) else rows[id]
    {
      if rows[id] in done { OldPlaceIsEmpty(f0, d0, f, d, root, src, dst, done, rows[id]); }
    }
  }

  // ---- A folder named like the folder of all singles ----

  /** A clash below a child is one of the whole. */
  lemma NestedClash(f: Files, d: set<Path>, src: Path, dst: Path, n: string)
    requires Wf(f, d) && Clashes(f, d, src + [n], dst + [n])
    ensures Clashes(f, d, src, dst)
  {
    assert Parent(src + [n]) == src;
    assert src < src + [n] && Exists(f, d, src + [n]) && Mirror(src, dst, src) == dst;
    if x, c :| x in d && src + [n] <= x && Mirror(src + [n], dst + [n], x) in f && Exists(f, d, c) && x < c {
      ChildMirror(src, dst, n, x);
      assert x in d && src <= x && Mirror(src, dst, x) in f && Exists(f, d, c) && x < c;
    } else {
      var p :| p < dst + [n] && p in f;
      assert p == (dst + [n])[..|p|] == dst[..|p|];
      PrefixCases(p, dst);
    }
  }

  lemma StayedExists(f0: Files, d0: set<Path>, f1: Files, d1: set<Path>, root: Path,
                     src: Path, dst: Path, done: set<Path>, p: Path)
    requires Disjoint(src, dst) && FolderMoved(f0, d0, f1, d1, root, src, dst, done)
    requires src <= p && Exists(f1, d1, p)
    ensures Exists(f0, d0, p) && (p in f1 ==> p in f0 && p !in done) && (p in d1 ==> p in d0)
  {
    DisjointUnder(src, dst, p);
    assert p < dst ==> src <= dst;
    forall q | q in done ensures Mirror(src, dst, q) != p { MirrorBack(src, dst, q); }
  }

  lemma NestedAbove(f0: Files, d0: set<Path>, f1: Files, src: Path, dst: Path, done: set<Path>, n: string, p: Path)
    requires Wf(f0, d0) && Relocated(f0, f1, src, dst, done) && Exists(f0, d0, src + [n])
    requires p < dst + [n] && p in f1
    ensures Clash(f0, d0, src, dst)
  {
    assert p == (dst + [n])[..|p|] == dst[..|p|];
    NotArrivedAbove(f0, f1, src, dst, done, p);
    if p == dst {
      assert Parent(src + [n]) == src && src <= src && Mirror(src, dst, src) == dst && src < src + [n];
    } else {
      PrefixCases(p, dst);
    }
  }

  /** After a folder has moved without a clash, nothing below clashes. */
  lemma NestedStaysClear(f0: Files, d0: set<Path>, f1: Files, d1: set<Path>, root: Path,
                         src: Path, dst: Path, done: set<Path>, n: string)
    requires Wf(f0, d0) && Disjoint(src, dst) && FolderMoved(f0, d0, f1, d1, root, src, dst, done)
    ensures Clashes(f1, d1, src + [n], dst + [n]) ==> Clashes(f0, d0, src, dst)
  {
    if Clashes(f1, d1, src + [n], dst + [n]) {
      StayedExists(f0, d0, f1, d1, root, src, dst, done, src + [n]);
      assert Parent(src + [n]) == src;
      if x, c :| x in d1 && src + [n] <= x && Mirror(src + [n], dst + [n], x) in f1 && Exists(f1, d1, c) && x < c {
        NestedMeeting(f0, d0, f1, d1, root, src, dst, done, n, x, c);
      } else {
        var p :| p < dst + [n] && p in f1;
        NestedAbove(f0, d0, f1, src, dst, done, n, p);
      }
    }
  }

  lemma NotArrivedAbove(f0: Files, f1: Files, src: Path, dst: Path, done: set<Path>, p: Path)
    requires Relocated(f0, f1, src, dst, done) && p in f1 && p <= dst
    ensures p in f0
  {
    forall q | q in done ensures Mirror(src, dst, q) != p {
      assert |Mirror(src, dst, q)| > |dst|;
    }
  }

  lemma NestedMeeting(f0: Files, d0: set<Path>, f1: Files, d1: set<Path>, root: Path,
                      src: Path, dst: Path, done: set<Path>, n: string, x: Path, c: Path)
    requires Wf(f0, d0) && Disjoint(src, dst) && FolderMoved(f0, d0, f1, d1, root, src, dst, done)
    requires x in d1 && src + [n] <= x && Mirror(src + [n], dst + [n], x) in f1 && Exists(f1, d1, c) && x < c
    ensures Clash(f0, d0, src, dst)
  {
    ChildMirror(src, dst, n, x);
    StayedExists(f0, d0, f1, d1, root, src, dst, done, x);
    StayedExists(f0, d0, f1, d1, root, src, dst, done, c);
    forall q | q in done ensures Mirror(src, dst, q) != Mirror(src, dst, x) {
      if Mirror(src, dst, q) == Mirror(src, dst, x) { MirrorInjective(src, dst, q, x); }
    }
    assert x in d0 && src <= x && Mirror(src, dst, x) in f0 && Exists(f0, d0, c) && x < c;
  }

  /** Nor is anything left below that could still move. */
  lemma NestedNothingLeft(f0: Files, d0: set<Path>, f1: Files, d1: set<Path>, root: Path,
                          src: Path, dst: Path, done: set<Path>, n: string)
    requires Wf(f0, d0) && Disjoint(src, dst) && |src| == |root| + 1
    requires FolderMoved(f0, d0, f1, d1, root, src, dst, done)
    ensures Movable(f1, d1, src + [n], dst + [n]) == {}
    ensures Movable(f0, d0, src + [n], dst + [n]) <= Movable(f0, d0, src, dst)
  {
    forall p | src + [n] < p
      ensures src < p && Mirror(src + [n], dst + [n], p) == Mirror(src, dst, p)
    {
      ChildMirror(src, dst, n, p);
    }
    forall p | p in f1 && src + [n] < p ensures Exists(f1, d1, Mirror(src, dst, p)) {
      StayedExists(f0, d0, f1, d1, root, src, dst, done, p);
      var m := Mirror(src, dst, p);
      MirrorBack(src, dst, p);
      DisjointUnder(src, dst, m);
      assert m in f0 ==> m in f1;
      assert m < src ==> dst <= src;
    }
  }

  // ---- The second folder after the first ----

  lemma SecondFolder(f0: Files, d0: set<Path>, f1: Files, d1: set<Path>, from: Path, to: Path, artist: string,
                     done: set<Path>)
    requires Wf(f0, d0) && Separate(from, to, artist)
    requires FolderMoved(f0, d0, f1, d1, from, AlbumsOf(from, artist), AlbumsOf(to, artist), done)
    requires !Clashes(f0, d0, AlbumsOf(from, artist), AlbumsOf(to, artist))
    ensures Clashes(f1, d1, SinglesOf(from, artist), SinglesOf(to, artist))
            <==> Clashes(f0, d0, SinglesOf(from, artist), SinglesOf(to, artist))
    ensures artist != "Singles" ==>
      && FilesUnder(f1, SinglesOf(from, artist)) == FilesUnder(f0, SinglesOf(from, artist))
      && Movable(f1, d1, SinglesOf(from, artist), SinglesOf(to, artist))
         == Movable(f0, d0, SinglesOf(from, artist), SinglesOf(to, artist))
    ensures artist == "Singles" ==>
      && Movable(f1, d1, SinglesOf(from, artist), SinglesOf(to, artist)) == {}
      && Movable(f0, d0, SinglesOf(from, artist), SinglesOf(to, artist))
         <= Movable(f0, d0, AlbumsOf(from, artist), AlbumsOf(to, artist))
  {
    var src, dst := AlbumsOf(from, artist), AlbumsOf(to, artist);
    if artist != "Singles" {
      Apart(src, SinglesOf(from, artist), |from|);
      Apart(dst, SinglesOf(to, artist), |to|);
      OtherPairUntouched(f0, d0, f1, d1, from, src, dst, SinglesOf(from, artist), SinglesOf(to, artist), done);
    } else {
      assert SinglesOf(from, artist) == src + [artist] && SinglesOf(to, artist) == dst + [artist];
      NestedStaysClear(f0, d0, f1, d1, from, src, dst, done, artist);
      NestedNothingLeft(f0, d0, f1, d1, from, src, dst, done, artist);
      if Clashes(f0, d0, src + [artist], dst + [artist]) { NestedClash(f0, d0, src, dst, artist); }
    }
  }

  // ---- Files across both folders ----

  function Across(from: Path, to: Path, artist: string, p: Path): Path {
    if AlbumsOf(from, artist) < p then Mirror(AlbumsOf(from, artist), AlbumsOf(to, artist), p)
    else if SinglesOf(from, artist) < p then Mirror(SinglesOf(from, artist), SinglesOf(to, artist), p)
    else p
  }

  /** Exactly the files in `gone` left the artist's folders, each for its free
      place in the other library; every other file is where it was. */
  ghost predicate Crossed(f0: Files, f: Files, from: Path, to: Path, artist: string, gone: set<Path>) {
    && (forall p :: p in gone ==>
          && p in f0 && (AlbumsOf(from, artist) < p || SinglesOf(from, artist) < p)
          && p !in f && Across(from, to, artist, p) !in f0
          && Across(from, to, artist, p) in f && f[Across(from, to, artist, p)] == f0[p])
    && (forall p :: p in f0 && p !in gone ==> p in f && f[p] == f0[p])
    && (forall q :: q in f ==> q in f0 || exists p :: p in gone && Across(from, to, artist, p) == q)
  }

  lemma AcrossEither(from: Path, to: Path, artist: string, p: Path)
    ensures AlbumsOf(from, artist) < p ==>
              Across(from, to, artist, p) == Mirror(AlbumsOf(from, artist), AlbumsOf(to, artist), p)
    ensures SinglesOf(from, artist) < p ==>
              Across(from, to, artist, p) == Mirror(SinglesOf(from, artist), SinglesOf(to, artist), p)
  {
    if AlbumsOf(from, artist) < p && SinglesOf(from, artist) < p {
      assert artist == p[|from|] == "Singles";
      assert SinglesOf(from, artist) == AlbumsOf(from, artist) + [artist];
      assert SinglesOf(to, artist) == AlbumsOf(to, artist) + [artist];
      ChildMirror(AlbumsOf(from, artist), AlbumsOf(to, artist), artist, p);
    }
  }

  lemma FirstCrossed(f0: Files, f1: Files, f: Files, from: Path, to: Path, artist: string,
                     done1: set<Path>, done2: set<Path>, p: Path)
    requires Separate(from, to, artist) && p in done1
    requires Relocated(f0, f1, AlbumsOf(from, artist), AlbumsOf(to, artist), done1)
    requires Relocated(f1, f, SinglesOf(from, artist), SinglesOf(to, artist), done2)
    ensures var m := Across(from, to, artist, p);
            p !in f && m !in f0 && m in f && f[m] == f0[p]
  {
    var m := Across(from, to, artist, p);
    AcrossEither(from, to, artist, p);
    MirrorBack(AlbumsOf(from, artist), AlbumsOf(to, artist), p);
    DisjointUnder(AlbumsOf(from, artist), AlbumsOf(to, artist), p);
    DisjointUnder(AlbumsOf(from, artist), SinglesOf(to, artist), p);
    DisjointUnder(AlbumsOf(to, artist), SinglesOf(from, artist), m);
    forall q | q in done1
      ensures Mirror(AlbumsOf(from, artist), AlbumsOf(to, artist), q) != p
    {
      MirrorBack(AlbumsOf(from, artist), AlbumsOf(to, artist), q);
    }
    forall q | q in done2 ensures Mirror(SinglesOf(from, artist), SinglesOf(to, artist), q) != p {
      MirrorBack(SinglesOf(from, artist), SinglesOf(to, artist), q);
    }
  }

  lemma SecondCrossed(f0: Files, f1: Files, f: Files, from: Path, to: Path, artist: string,
                      done1: set<Path>, done2: set<Path>, p: Path)
    requires Separate(from, to, artist) && p in done2
    requires Relocated(f0, f1, AlbumsOf(from, artist), AlbumsOf(to, artist), done1)
    requires Relocated(f1, f, SinglesOf(from, artist), SinglesOf(to, artist), done2)
    ensures var m := Across(from, to, artist, p);
            p in f0 && p !in f && m !in f0 && m in f && f[m] == f0[p]
  {
    var m := Across(from, to, artist, p);
    AcrossEither(from, to, artist, p);
    MirrorBack(SinglesOf(from, artist), SinglesOf(to, artist), p);
    DisjointUnder(SinglesOf(from, artist), SinglesOf(to, artist), p);
    DisjointUnder(AlbumsOf(to, artist), SinglesOf(from, artist), p);
    DisjointUnder(AlbumsOf(from, artist), SinglesOf(to, artist), m);
    forall q | q in done1 ensures Mirror(AlbumsOf(from, artist), AlbumsOf(to, artist), q) != p {
      MirrorBack(AlbumsOf(from, artist), AlbumsOf(to, artist), q);
    }
    forall q | q in done2 ensures Mirror(SinglesOf(from, artist), SinglesOf(to, artist), q) != p {
      MirrorBack(SinglesOf(from, artist), SinglesOf(to, artist), q);
    }
  }

  lemma BothCrossed(f0: Files, f1: Files, f: Files, from: Path, to: Path, artist: string,
                    done1: set<Path>, done2: set<Path>)
    requires Separate(from, to, artist)
    requires Relocated(f0, f1, AlbumsOf(from, artist), AlbumsOf(to, artist), done1)
    requires Relocated(f1, f, SinglesOf(from, artist), SinglesOf(to, artist), done2)
    ensures Crossed(f0, f, from, to, artist, done1 + done2)
  {
    forall p | p in done1 + done2
      ensures var m := Across(from, to, artist, p);
              p in f0 && p !in f && m !in f0 && m in f && f[m] == f0[p]
    {
      if p in done1 {
        FirstCrossed(f0, f1, f, from, to, artist, done1, done2, p);
      } else {
        SecondCrossed(f0, f1, f, from, to, artist, done1, done2, p);
      }
    }
    forall q | q in f && q !in f0 ensures exists p :: p in done1 + done2 && Across(from, to, artist, p) == q {
      var p :| (p in done1 && Mirror(AlbumsOf(from, artist), AlbumsOf(to, artist), p) == q)
               || (p in done2 && Mirror(SinglesOf(from, artist), SinglesOf(to, artist), p) == q);
      AcrossEither(from, to, artist, p);
    }
  }

  /** With the rows as they were, the index is true afterwards exactly when none
      of its files crossed. */
  lemma StaleIff(rows: Rows, f0: Files, f: Files, from: Path, to: Path, artist: string, gone: set<Path>)
    requires Truthful(rows, f0) && Crossed(f0, f, from, to, artist, gone)
    ensures Truthful(rows, f) <==> forall id :: id in rows ==> rows[id] !in gone
  {
  }

  // ---- Rows across both folders ----

  /** What may cross: the files of either folder whose place is free. */
  ghost function MayCross(files: Files, dirs: set<Path>, from: Path, to: Path, artist: string): set<Path> {
    Movable(files, dirs, AlbumsOf(from, artist), AlbumsOf(to, artist))
    + Movable(files, dirs, SinglesOf(from, artist), SinglesOf(to, artist))
  }

  /** The rows with every path that may cross taken across. */
  ghost function Moved(rows: Rows, files: Files, dirs: set<Path>, from: Path, to: Path, artist: string): Rows {
    map id | id in rows :: if rows[id] in MayCross(files, dirs, from, to, artist)
                           then Across(from, to, artist, rows[id]) else rows[id]
  }

  ghost function FollowedBoth(rows: Rows, from: Path, to: Path, artist: string, d1: set<Path>, d2: set<Path>): Rows
    requires forall p :: p in d1 ==> AlbumsOf(from, artist) < p
    requires forall p :: p in d2 ==> SinglesOf(from, artist) < p
  {
    Followed(Followed(rows, AlbumsOf(from, artist), AlbumsOf(to, artist), d1),
             SinglesOf(from, artist), SinglesOf(to, artist), d2)
  }

  lemma FollowTwice(rows: Rows, from: Path, to: Path, artist: string, d1: set<Path>, d2: set<Path>)
    requires Separate(from, to, artist) && d1 !! d2
    requires forall p :: p in d1 ==> AlbumsOf(from, artist) < p
    requires forall p :: p in d2 ==> SinglesOf(from, artist) < p
    ensures FollowedBoth(rows, from, to, artist, d1, d2)
            == map id | id in rows :: if rows[id] in d1 + d2 then Across(from, to, artist, rows[id]) else rows[id]
  {
    forall p | p in d1 + d2
      ensures p in d1 ==> Across(from, to, artist, p) == Mirror(AlbumsOf(from, artist), AlbumsOf(to, artist), p)
                          && Across(from, to, artist, p) !in d2
      ensures p in d2 ==> Across(from, to, artist, p) == Mirror(SinglesOf(from, artist), SinglesOf(to, artist), p)
    {
      AcrossEither(from, to, artist, p);
      if p in d1 {
        MirrorBack(AlbumsOf(from, artist), AlbumsOf(to, artist), p);
        DisjointUnder(AlbumsOf(to, artist), SinglesOf(from, artist), Across(from, to, artist, p));
      }
    }
  }

  /** A file that left is not there to leave again. */
  lemma LeavesOnce(f0: Files, f1: Files, f: Files, src1: Path, dst1: Path, src2: Path, dst2: Path,
                   done1: set<Path>, done2: set<Path>)
    requires Disjoint(src1, dst1) && Relocated(f0, f1, src1, dst1, done1) && Relocated(f1, f, src2, dst2, done2)
    ensures done1 !! done2
  {
    forall p | p in done1 ensures p !in f1 {
      DisjointUnder(src1, dst1, p);
      forall q | q in done1 ensures Mirror(src1, dst1, q) != p { MirrorBack(src1, dst1, q); }
    }
  }

  lemma AllMayCross(f0: Files, d0: set<Path>, f1: Files, d1: set<Path>, f: Files, d: set<Path>,
                    from: Path, to: Path, artist: string, done1: set<Path>, done2: set<Path>)
    requires Wf(f0, d0) && Separate(from, to, artist)
    requires FolderMoved(f0, d0, f1, d1, from, AlbumsOf(from, artist), AlbumsOf(to, artist), done1)
    requires FolderMoved(f1, d1, f, d, from, SinglesOf(from, artist), SinglesOf(to, artist), done2)
    requires !Clashes(f0, d0, AlbumsOf(from, artist), AlbumsOf(to, artist))
    ensures done1 + done2 == MayCross(f0, d0, from, to, artist)
  {
    SecondFolder(f0, d0, f1, d1, from, to, artist, done1);
  }

  lemma CrossedRows(rows: Rows, f0: Files, d0: set<Path>, f1: Files, d1: set<Path>, f: Files, d: set<Path>,
                    from: Path, to: Path, artist: string, done1: set<Path>, done2: set<Path>)
    requires Wf(f0, d0) && Separate(from, to, artist)
    requires FolderMoved(f0, d0, f1, d1, from, AlbumsOf(from, artist), AlbumsOf(to, artist), done1)
    requires FolderMoved(f1, d1, f, d, from, SinglesOf(from, artist), SinglesOf(to, artist), done2)
    requires !Clashes(f0, d0, AlbumsOf(from, artist), AlbumsOf(to, artist))
    ensures FollowedBoth(rows, from, to, artist, done1, done2) == Moved(rows, f0, d0, from, to, artist)
  {
    AllMayCross(f0, d0, f1, d1, f, d, from, to, artist, done1, done2);
    LeavesOnce(f0, f1, f, AlbumsOf(from, artist), AlbumsOf(to, artist),
               SinglesOf(from, artist), SinglesOf(to, artist), done1, done2);
    FollowTwice(rows, from, to, artist, done1, done2);
  }

  /** Rows outside the artist's two folders are as they were. */
  ghost predicate Elsewhere(rows0: Rows, rows: Rows, from: Path, artist: string) {
    forall id :: id in rows0 && !(AlbumsOf(from, artist) < rows0[id]) && !(SinglesOf(from, artist) < rows0[id])
      ==> id in rows && rows[id] == rows0[id]
  }

  /** The rows after both folders' turns, whatever the index said before. */
  function RowsBoth(rows: Rows, d0: set<Path>, f1: Files, d1: set<Path>, f: Files, d: set<Path>,
                    from: Path, to: Path, artist: string): Rows
  {
    var mid := FolderRows(rows, d0, f1, d1, AlbumsOf(from, artist), AlbumsOf(to, artist));
    FolderRows(mid, d1, f, d, SinglesOf(from, artist), SinglesOf(to, artist))
  }

  lemma RowsBothElsewhere(rows: Rows, d0: set<Path>, f1: Files, d1: set<Path>, f: Files, d: set<Path>,
                          from: Path, to: Path, artist: string)
    ensures Elsewhere(rows, RowsBoth(rows, d0, f1, d1, f, d, from, to, artist), from, artist)
  {
  }

  lemma LeftCount(files: Files, src: Path, done: set<Path>)
    requires done <= FilesUnder(files, src)
    ensures |done| + |FilesUnder(files, src) - done| == |FilesUnder(files, src)|
  {
    assert FilesUnder(files, src) == done + (FilesUnder(files, src) - done);
  }
}
