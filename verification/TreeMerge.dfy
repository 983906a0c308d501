/** Merging one directory tree into another without ever overwriting. */
module TreeMerge {
  type Path = seq<string>

  /** A file's identity; it survives moves. */
  type FileId = nat

  type Files = map<Path, FileId>

  predicate Exists(files: Files, dirs: set<Path>, p: Path) {
    p in files || p in dirs
  }

  function Parent(p: Path): Path
    requires p != []
  {
    p[..|p| - 1]
  }

  /** The root is a directory, files are not directories, parents are. */
  ghost predicate Wf(files: Files, dirs: set<Path>) {
    && [] in dirs
    && (forall p :: p in files ==> p !in dirs)
    && (forall p :: Exists(files, dirs, p) && p != [] ==> Parent(p) in dirs)
  }

  predicate Disjoint(src: Path, dst: Path) {
    !(src <= dst) && !(dst <= src)
  }

  function Mirror(src: Path, dst: Path, p: Path): Path
    requires src <= p
  {
    dst + p[|src|..]
  }

  /** The files under `src` whose mirrored place is free. */
  ghost function Movable(files: Files, dirs: set<Path>, src: Path, dst: Path): set<Path> {
    set p | p in files && src < p && !Exists(files, dirs, Mirror(src, dst, p))
  }

  ghost function FilesUnder(files: Files, src: Path): set<Path> {
    set p | p in files && src < p
  }

  ghost function Mirrors(src: Path, dst: Path, done: set<Path>): set<Path>
    requires forall p :: p in done ==> src < p
  {
    set p | p in done :: Mirror(src, dst, p)
  }

  /** Exactly the files in `done` went to their mirrored places, which were
      free; every other file is where it was. Nothing is overwritten or lost. */
  ghost predicate Relocated(before: Files, after: Files, src: Path, dst: Path, done: set<Path>) {
    && done <= FilesUnder(before, src)
    && (forall p :: p in done ==> Mirror(src, dst, p) !in before)
    && after.Keys == before.Keys - done + Mirrors(src, dst, done)
    && (forall p :: p in before && p !in done ==> p in after && after[p] == before[p])
    && (forall p :: p in done ==> Mirror(src, dst, p) in after && after[Mirror(src, dst, p)] == before[p])
  }

  /** A non-empty source directory meets a file, or the destination cannot be
      created because a file stands above it. */
  ghost predicate Clash(files: Files, dirs: set<Path>, src: Path, dst: Path) {
    || (exists d, c :: d in dirs && src <= d && Mirror(src, dst, d) in files && Exists(files, dirs, c) && d < c)
    || exists d :: d < dst && d in files
  }

  // ---- Paths ----

  lemma PrefixCases(p: Path, q: Path)
    requires p <= q
    ensures p == q || p < q
  {
    if |p| == |q| { assert p == q[..|p|] == q; }
  }

  lemma ChildMirror(src: Path, dst: Path, n: string, p: Path)
    requires src + [n] <= p
    ensures src < p && Mirror(src + [n], dst + [n], p) == Mirror(src, dst, p)
  {
    assert p[|src|..] == [n] + p[|src| + 1..];
  }

  lemma MirrorBack(src: Path, dst: Path, p: Path)
    requires src <= p
    ensures dst <= Mirror(src, dst, p) && Mirror(dst, src, Mirror(src, dst, p)) == p
  {
  }

  lemma MirrorInjective(src: Path, dst: Path, p: Path, q: Path)
    requires src <= p && src <= q && Mirror(src, dst, p) == Mirror(src, dst, q)
    ensures p == q
  {
    MirrorBack(src, dst, p);
    MirrorBack(src, dst, q);
  }

  lemma MirrorIsInjective(src: Path, dst: Path)
    ensures forall p, q {:trigger Mirror(src, dst, p), Mirror(src, dst, q)} ::
              src <= p && src <= q && Mirror(src, dst, p) == Mirror(src, dst, q) ==> p == q
  {
    forall p, q | src <= p && src <= q && Mirror(src, dst, p) == Mirror(src, dst, q) ensures p == q {
      MirrorInjective(src, dst, p, q);
    }
  }

  lemma DisjointUnder(src: Path, dst: Path, p: Path)
    requires Disjoint(src, dst)
    ensures !(src <= p && dst <= p)
  {
  }

  lemma ChildDisjoint(src: Path, dst: Path, n: string)
    requires Disjoint(src, dst)
    ensures Disjoint(src + [n], dst + [n])
  {
    DisjointUnder(src, dst, dst + [n]);
    DisjointUnder(src, dst, src + [n]);
  }

  // ---- Composing relocations ----

  lemma NothingRelocated(files: Files, src: Path, dst: Path)
    ensures Relocated(files, files, src, dst, {})
  {
  }

  lemma ChildRelocated(a: Files, b: Files, src: Path, dst: Path, n: string, done: set<Path>)
    requires Relocated(a, b, src + [n], dst + [n], done)
    ensures Relocated(a, b, src, dst, done)
  {
    forall p | p in done ensures src < p && Mirror(src + [n], dst + [n], p) == Mirror(src, dst, p) {
      ChildMirror(src, dst, n, p);
    }
    assert Mirrors(src + [n], dst + [n], done) == Mirrors(src, dst, done);
  }

  lemma RelocatedThen(a: Files, b: Files, c: Files, src: Path, dst: Path, d1: set<Path>, d2: set<Path>)
    requires Disjoint(src, dst)
    requires Relocated(a, b, src, dst, d1) && Relocated(b, c, src, dst, d2)
    ensures Relocated(a, c, src, dst, d1 + d2) && d1 !! d2
  {
    forall p | p in d2
      ensures p in a && p !in d1 && Mirror(src, dst, p) !in a && a[p] == b[p]
    {
      DisjointUnder(src, dst, p);
      DisjointUnder(src, dst, Mirror(src, dst, p));
    }
    assert Mirrors(src, dst, d1 + d2) == Mirrors(src, dst, d1) + Mirrors(src, dst, d2);
    forall p | p in d1 ensures Mirror(src, dst, p) in b && Mirror(src, dst, p) !in d2 {
      DisjointUnder(src, dst, Mirror(src, dst, p));
    }
  }

  /** One file moved into its free mirrored place. */
  lemma OneRelocated(files: Files, src: Path, dst: Path, n: string)
    requires Disjoint(src, dst) && src + [n] in files && dst + [n] !in files
    ensures Relocated(files, (files - {src + [n]})[dst + [n] := files[src + [n]]], src, dst, {src + [n]})
  {
    assert Mirror(src, dst, src + [n]) == dst + [n];
    assert Mirrors(src, dst, {src + [n]}) == {dst + [n]};
  }

  // ---- Renaming a whole directory ----

  predicate Free(files: Files, dirs: set<Path>, dst: Path) {
    (forall p :: p in files ==> !(dst <= p)) && (forall d :: d in dirs ==> !(dst <= d))
  }

  lemma {:induction false} FreeBelow(files: Files, dirs: set<Path>, dst: Path, p: Path)
    requires Wf(files, dirs) && !Exists(files, dirs, dst) && dst <= p
    ensures !Exists(files, dirs, p)
    decreases |p|
  {
    if Exists(files, dirs, p) && p != dst {
      assert dst <= Parent(p);
      FreeBelow(files, dirs, dst, Parent(p));
    }
  }

  function RenamedFiles(files: Files, src: Path, dst: Path): Files
    requires forall p :: p in files ==> !(dst <= p)
  {
    MirrorIsInjective(src, dst);
    (map q | q in files && !(src < q) :: files[q]) +
    (map p | p in files && src < p :: Mirror(src, dst, p) := files[p])
  }

  function Ancestors(dst: Path): set<Path> {
    set k | 0 <= k < |dst| :: dst[..k]
  }

  function RenamedDirs(dirs: set<Path>, src: Path, dst: Path): set<Path> {
    dirs - (set d | d in dirs && src <= d) + (set d | d in dirs && src <= d :: Mirror(src, dst, d)) + Ancestors(dst)
  }

  lemma RenameRelocates(files: Files, src: Path, dst: Path)
    requires forall p :: p in files ==> !(dst <= p)
    requires Disjoint(src, dst)
    ensures Relocated(files, RenamedFiles(files, src, dst), src, dst, FilesUnder(files, src))
  {
    var after := RenamedFiles(files, src, dst);
    forall p | p in FilesUnder(files, src)
      ensures Mirror(src, dst, p) in after && after[Mirror(src, dst, p)] == files[p]
    {
      MirrorBack(src, dst, p);
      forall q | q in files && src < q && Mirror(src, dst, q) == Mirror(src, dst, p) ensures q == p {
        MirrorInjective(src, dst, p, q);
      }
    }
    forall p | p in FilesUnder(files, src) ensures !(src < Mirror(src, dst, p)) && dst <= Mirror(src, dst, p) {
      MirrorBack(src, dst, p);
      DisjointUnder(src, dst, Mirror(src, dst, p));
    }
  }

  lemma RenamedApart(files: Files, dirs: set<Path>, src: Path, dst: Path, p: Path)
    requires Wf(files, dirs) && Disjoint(src, dst) && Free(files, dirs, dst)
    requires forall d :: d < dst ==> d !in files
    requires p in RenamedFiles(files, src, dst)
    ensures p !in RenamedDirs(dirs, src, dst)
  {
    if p in files && !(src < p) {
      forall d | d in dirs && src <= d ensures Mirror(src, dst, d) != p { MirrorBack(src, dst, d); }
      assert p !in Ancestors(dst);
    } else {
      var q :| q in files && src < q && Mirror(src, dst, q) == p;
      MirrorBack(src, dst, q);
      forall d | d in dirs && src <= d ensures Mirror(src, dst, d) != p {
        if Mirror(src, dst, d) == p { MirrorInjective(src, dst, d, q); }
      }
      assert p !in Ancestors(dst);
    }
  }

  ghost predicate CameFrom(files: Files, dirs: set<Path>, src: Path, dst: Path, p: Path) {
    || (Exists(files, dirs, p) && !(src <= p))
    || exists q :: Exists(files, dirs, q) && src <= q && Mirror(src, dst, q) == p
  }

  lemma FileCameFrom(files: Files, dirs: set<Path>, src: Path, dst: Path, p: Path)
    requires Wf(files, dirs) && src in dirs && Free(files, dirs, dst)
    requires p in RenamedFiles(files, src, dst)
    ensures CameFrom(files, dirs, src, dst, p)
  {
    if src <= p { PrefixCases(src, p); }
    if !(p in files && !(src < p)) {
      var q :| q in files && src < q && Mirror(src, dst, q) == p;
      assert Exists(files, dirs, q);
    }
  }

  lemma DirCameFrom(files: Files, dirs: set<Path>, src: Path, dst: Path, p: Path)
    requires p in RenamedDirs(dirs, src, dst) && p !in Ancestors(dst)
    ensures CameFrom(files, dirs, src, dst, p)
  {
    if !(p in dirs && !(src <= p)) {
      var q :| q in dirs && src <= q && Mirror(src, dst, q) == p;
      assert Exists(files, dirs, q);
    }
  }

  lemma StayedParent(dirs: set<Path>, src: Path, dst: Path, p: Path)
    requires p != [] && Parent(p) in dirs && !(src <= p)
    ensures Parent(p) in RenamedDirs(dirs, src, dst)
  {
    assert src <= Parent(p) ==> src <= p;
  }

  lemma ArrivedParent(files: Files, dirs: set<Path>, src: Path, dst: Path, q: Path)
    requires Wf(files, dirs) && src in dirs && src != [] && dst != []
    requires Exists(files, dirs, q) && src <= q
    ensures Mirror(src, dst, q) != [] && Parent(Mirror(src, dst, q)) in RenamedDirs(dirs, src, dst)
  {
    if q == src {
      assert Mirror(src, dst, src) == dst && Parent(dst) == dst[..|dst| - 1];
      assert Parent(dst) in Ancestors(dst);
    } else {
      PrefixCases(src, q);
      assert src <= Parent(q) && Mirror(src, dst, Parent(q)) == Parent(Mirror(src, dst, q));
    }
  }

  lemma AncestorParent(dirs: set<Path>, src: Path, dst: Path, p: Path)
    requires p in Ancestors(dst) && p != []
    ensures Parent(p) in RenamedDirs(dirs, src, dst)
  {
    var k :| 0 <= k < |dst| && dst[..k] == p;
    assert Parent(p) == dst[..k - 1] && Parent(p) in Ancestors(dst);
  }

  lemma RenamedParent(files: Files, dirs: set<Path>, src: Path, dst: Path, p: Path)
    requires Wf(files, dirs) && src in dirs && Disjoint(src, dst) && Free(files, dirs, dst)
    requires Exists(RenamedFiles(files, src, dst), RenamedDirs(dirs, src, dst), p) && p != []
    ensures Parent(p) in RenamedDirs(dirs, src, dst)
  {
    if p in RenamedFiles(files, src, dst) {
      FileCameFrom(files, dirs, src, dst, p);
    } else if p !in Ancestors(dst) {
      DirCameFrom(files, dirs, src, dst, p);
    }
    if p in Ancestors(dst) {
      AncestorParent(dirs, src, dst, p);
    } else if Exists(files, dirs, p) && !(src <= p) {
      StayedParent(dirs, src, dst, p);
    } else {
      var q :| Exists(files, dirs, q) && src <= q && Mirror(src, dst, q) == p;
      ArrivedParent(files, dirs, src, dst, q);
    }
  }

  lemma RenameKeepsWf(files: Files, dirs: set<Path>, src: Path, dst: Path)
    requires Wf(files, dirs) && src in dirs && Disjoint(src, dst) && Free(files, dirs, dst)
    requires forall d :: d < dst ==> d !in files
    ensures Wf(RenamedFiles(files, src, dst), RenamedDirs(dirs, src, dst))
  {
    var fs, ds := RenamedFiles(files, src, dst), RenamedDirs(dirs, src, dst);
    assert [] in ds by { assert dst != [] && dst[..0] == []; }
    forall p | p in fs ensures p !in ds { RenamedApart(files, dirs, src, dst, p); }
    forall p | Exists(fs, ds, p) && p != [] ensures Parent(p) in ds { RenamedParent(files, dirs, src, dst, p); }
  }

  // ---- Other subtrees are not disturbed ----

  ghost predicate SameUnder(f1: Files, d1: set<Path>, f2: Files, d2: set<Path>, root: Path) {
    forall p :: root <= p ==>
      && (p in f1 <==> p in f2) && (p in d1 <==> p in d2)
      && (p in f1 && p in f2 ==> f1[p] == f2[p])
  }

  /** Files under a child none of whose files moved are as before, on both sides. */
  lemma OtherFilesStay(a: Files, b: Files, src: Path, dst: Path, done: set<Path>, n: string, p: Path)
    requires Disjoint(src, dst) && Relocated(a, b, src, dst, done)
    requires forall q :: q in done ==> !(src + [n] <= q)
    requires src + [n] <= p || dst + [n] <= p
    ensures (p in a <==> p in b) && (p in a && p in b ==> a[p] == b[p])
  {
    DisjointUnder(src, dst, p);
    forall q | q in done ensures Mirror(src, dst, q) != p {
      if Mirror(src, dst, q) == p { MirrorBack(src, dst, q); }
    }
  }

  /** What may move under a child, seen from the current state, is what could
      move there at the outset. */
  lemma MovableUnderChild(f0: Files, d0: set<Path>, f: Files, d: set<Path>, src: Path, dst: Path, n: string)
    requires SameUnder(f0, d0, f, d, src + [n]) && SameUnder(f0, d0, f, d, dst + [n])
    requires src + [n] !in f0
    ensures Movable(f, d, src + [n], dst + [n])
            == set p | p in Movable(f0, d0, src, dst) && src + [n] <= p
  {
    forall p | src + [n] <= p
      ensures p in Movable(f, d, src + [n], dst + [n]) <==> p in Movable(f0, d0, src, dst)
    {
      ChildMirror(src, dst, n, p);
      PrefixCases(src + [n], p);
      var m := Mirror(src, dst, p);
      assert dst + [n] <= m;
      assert Exists(f, d, m) == Exists(f0, d0, m);
      assert p in f <==> p in f0;
    }
  }

  /** A clash under a child is a clash of the whole merge, and conversely each
      clash lies under some child. */
  lemma ClashUnderChild(f0: Files, d0: set<Path>, f: Files, d: set<Path>, src: Path, dst: Path, n: string)
    requires Wf(f0, d0) && Wf(f, d) && SameUnder(f0, d0, f, d, src + [n]) && SameUnder(f0, d0, f, d, dst + [n])
    requires src in d0 && src + [n] in d0 && Exists(f0, d0, dst)
    requires (dst in d0 <==> dst in d) && (dst in f0 <==> dst in f)
    ensures Clash(f, d, src + [n], dst + [n]) ==> Clash(f0, d0, src, dst)
    ensures (exists x, c :: x in d0 && src + [n] <= x && Mirror(src, dst, x) in f0 && Exists(f0, d0, c) && x < c)
            ==> Clash(f, d, src + [n], dst + [n])
  {
    if Clash(f, d, src + [n], dst + [n]) {
      if exists x, c :: x in d && src + [n] <= x && Mirror(src + [n], dst + [n], x) in f && Exists(f, d, c) && x < c {
        var x, c :| x in d && src + [n] <= x && Mirror(src + [n], dst + [n], x) in f && Exists(f, d, c) && x < c;
        ChildMirror(src, dst, n, x);
        assert src + [n] <= c && dst + [n] <= Mirror(src, dst, x);
        assert x in d0 && src <= x && Mirror(src, dst, x) in f0 && Exists(f0, d0, c) && x < c;
      } else {
        var x :| x < dst + [n] && x in f;
        assert x == (dst + [n])[..|x|] == dst[..|x|];
        if x != dst { AboveIsDir(f, d, dst, x); }
        assert Mirror(src, dst, src) == dst;
        assert src in d0 && Mirror(src, dst, src) in f0 && Exists(f0, d0, src + [n]) && src < src + [n];
      }
    }
    if exists x, c :: x in d0 && src + [n] <= x && Mirror(src, dst, x) in f0 && Exists(f0, d0, c) && x < c {
      var x, c :| x in d0 && src + [n] <= x && Mirror(src, dst, x) in f0 && Exists(f0, d0, c) && x < c;
      ChildMirror(src, dst, n, x);
      assert src + [n] <= c && dst + [n] <= Mirror(src, dst, x);
      assert Exists(f, d, c);
    }
  }

  lemma {:induction false} AboveIsDir(files: Files, dirs: set<Path>, p: Path, above: Path)
    requires Wf(files, dirs) && Exists(files, dirs, p) && above < p
    ensures above in dirs
    decreases |p|
  {
    assert above <= Parent(p);
    if above != Parent(p) { AboveIsDir(files, dirs, Parent(p), above); }
  }

  // ---- The merge, child by child ----

  function Children(files: Files, dirs: set<Path>, src: Path): set<string> {
    set p | p in files.Keys + dirs && src < p :: p[|src|]
  }

  ghost function Among(paths: set<Path>, src: Path, todo: set<string>): set<Path> {
    set p | p in paths && src < p && p[|src|] !in todo
  }

  ghost predicate ClashUnder(files: Files, dirs: set<Path>, src: Path, dst: Path, n: string) {
    exists d, c :: d in dirs && src + [n] <= d && Mirror(src, dst, d) in files && Exists(files, dirs, c) && d < c
  }

  /** State of the loop: the children in `todo` are untouched on both sides, and
      of the others exactly the movable files have moved, without a clash. */
  ghost predicate Progress(f0: Files, d0: set<Path>, f: Files, d: set<Path>, src: Path, dst: Path,
                           todo: set<string>, done: set<Path>)
  {
    && Wf(f, d) && Relocated(f0, f, src, dst, done)
    && done == Among(Movable(f0, d0, src, dst), src, todo)
    && (forall n :: n in todo ==> SameUnder(f0, d0, f, d, src + [n]) && SameUnder(f0, d0, f, d, dst + [n]))
    && src in d && (dst in d <==> dst in d0) && (dst in f <==> dst in f0)
    && (forall n :: n in Children(f0, d0, src) && n !in todo ==> dst in d0 && !ClashUnder(f0, d0, src, dst, n))
  }

  /** Directories go only from the source, and come only under or above the
      destination. */
  ghost predicate DirsFrame(d0: set<Path>, d: set<Path>, src: Path, dst: Path) {
    && (forall x :: x in d0 && !(src <= x) ==> x in d)
    && (forall x :: x in d && !(dst <= x) ==> x in d0 || x < dst)
  }

  lemma AmongStep(paths: set<Path>, src: Path, todo: set<string>, n: string)
    requires n in todo
    ensures Among(paths, src, todo - {n}) == Among(paths, src, todo) + (set p | p in paths && src + [n] <= p)
    ensures Among(paths, src, todo) !! (set p | p in paths && src + [n] <= p)
  {
    forall p | p in paths ensures src + [n] <= p <==> src < p && p[|src|] == n {
      if src < p && p[|src|] == n { assert p[..|src| + 1] == src + [n]; }
    }
  }

  lemma NotAbove(src: Path, dst: Path, n: string, p: Path)
    requires Disjoint(src, dst) && src <= p
    ensures !(p < dst + [n])
  {
    if |p| <= |dst| { assert dst[..|p|] == (dst + [n])[..|p|]; }
  }

  /** What a relocation below one child leaves alone. */
  lemma SiblingsUntouched(f0: Files, d0: set<Path>, f: Files, d: set<Path>, d2: set<Path>, src: Path, dst: Path,
                          done: set<Path>, n: string, m: string)
    requires Disjoint(src, dst) && Relocated(f0, f, src, dst, done) && n != m
    requires forall q :: q in done ==> !(src + [m] <= q)
    requires DirsFrame(d, d2, src + [n], dst + [n])
    requires forall p :: src + [m] <= p || dst + [m] <= p ==> (p in d <==> p in d0)
    ensures SameUnder(f0, d0, f, d2, src + [m]) && SameUnder(f0, d0, f, d2, dst + [m])
  {
    forall p | src + [m] <= p || dst + [m] <= p
      ensures (p in f0 <==> p in f) && (p in f0 && p in f ==> f0[p] == f[p]) && (p in d0 <==> p in d2)
    {
      OtherFilesStay(f0, f, src, dst, done, m, p);
      DisjointUnder(src, dst, p);
      assert !(src + [n] <= p) && !(dst + [n] <= p) && !(p < dst + [n]) by {
        if src + [m] <= p {
          assert p[|src|] == m;
          NotAbove(src, dst, n, p);
        } else {
          assert p[|dst|] == m;
        }
      }
    }
  }

  lemma EndpointsStay(f0: Files, f: Files, src: Path, dst: Path, done: set<Path>)
    requires Disjoint(src, dst) && Relocated(f0, f, src, dst, done)
    ensures dst in f <==> dst in f0
  {
    forall q | q in done ensures Mirror(src, dst, q) != dst {}
  }

  /** The children still to do are as at the outset after `n` was dealt with. */
  lemma OthersUntouched(f0: Files, d0: set<Path>, f: Files, d: set<Path>, f2: Files, d2: set<Path>,
                        src: Path, dst: Path, todo: set<string>, all: set<Path>, n: string)
    requires Disjoint(src, dst) && Relocated(f0, f2, src, dst, all)
    requires forall q :: q in all ==> src < q && q[|src|] !in todo - {n}
    requires forall m :: m in todo ==> SameUnder(f0, d0, f, d, src + [m]) && SameUnder(f0, d0, f, d, dst + [m])
    requires DirsFrame(d, d2, src + [n], dst + [n])
    ensures forall m :: m in todo - {n} ==> SameUnder(f0, d0, f2, d2, src + [m]) && SameUnder(f0, d0, f2, d2, dst + [m])
  {
    forall m | m in todo - {n}
      ensures SameUnder(f0, d0, f2, d2, src + [m]) && SameUnder(f0, d0, f2, d2, dst + [m])
    {
      forall q | q in all ensures !(src + [m] <= q) {
        assert q[|src|] != m;
      }
      SiblingsUntouched(f0, d0, f2, d, d2, src, dst, all, n, m);
    }
  }

  lemma AmongNames(paths: set<Path>, src: Path, todo: set<string>)
    ensures forall q :: q in Among(paths, src, todo) ==> src < q && q[|src|] !in todo
  {
  }

  lemma DoneAfterDir(f0: Files, d0: set<Path>, f: Files, d: set<Path>, src: Path, dst: Path,
                     todo: set<string>, n: string)
    requires n in todo && src + [n] !in f0
    requires SameUnder(f0, d0, f, d, src + [n]) && SameUnder(f0, d0, f, d, dst + [n])
    ensures var before, more := Among(Movable(f0, d0, src, dst), src, todo), Movable(f, d, src + [n], dst + [n]);
            before + more == Among(Movable(f0, d0, src, dst), src, todo - {n}) && before !! more
  {
    MovableUnderChild(f0, d0, f, d, src, dst, n);
    AmongStep(Movable(f0, d0, src, dst), src, todo, n);
  }

  lemma DoneAfterFile(f0: Files, d0: set<Path>, src: Path, dst: Path, todo: set<string>, n: string)
    requires Wf(f0, d0) && n in todo && src + [n] in f0
    ensures var before := Among(Movable(f0, d0, src, dst), src, todo);
            var more := if Exists(f0, d0, dst + [n]) then {} else {src + [n]};
            before + more == Among(Movable(f0, d0, src, dst), src, todo - {n}) && before !! more
    ensures !ClashUnder(f0, d0, src, dst, n)
  {
    var item := src + [n];
    AmongStep(Movable(f0, d0, src, dst), src, todo, n);
    assert Mirror(src, dst, item) == dst + [n];
    forall p | Exists(f0, d0, p) && item <= p ensures p == item {
      PrefixCases(item, p);
      if item < p { AboveIsDir(f0, d0, p, item); }
    }
    assert item <= item && src < item;
    assert forall p :: p in Movable(f0, d0, src, dst) ==> Exists(f0, d0, p);
    assert item in Movable(f0, d0, src, dst) <==> !Exists(f0, d0, dst + [n]);
    assert (set p | p in Movable(f0, d0, src, dst) && item <= p) == if Exists(f0, d0, dst + [n]) then {} else {item};
  }

  lemma DirsStay(d: set<Path>, d2: set<Path>, src: Path, dst: Path, n: string)
    requires Disjoint(src, dst) && DirsFrame(d, d2, src + [n], dst + [n])
    ensures (src in d ==> src in d2) && (dst in d ==> dst in d2)
  {
    assert !(src + [n] <= src) && !(dst + [n] <= dst);
    assert dst + [n] <= src ==> dst <= src;
    assert src + [n] <= dst ==> src <= dst;
  }

  /** The step for a child directory whose own merge went through. */
  lemma ProgressDir(f0: Files, d0: set<Path>, f: Files, d: set<Path>, f2: Files, d2: set<Path>,
                    src: Path, dst: Path, todo: set<string>, done: set<Path>, n: string, more: set<Path>)
    requires Progress(f0, d0, f, d, src, dst, todo, done) && Disjoint(src, dst) && Wf(f0, d0) && Wf(f2, d2)
    requires n in todo && src + [n] in d && Exists(f0, d0, dst) && src in d0
    requires Relocated(f, f2, src + [n], dst + [n], more) && more == Movable(f, d, src + [n], dst + [n])
    requires DirsFrame(d, d2, src + [n], dst + [n]) && !Clash(f, d, src + [n], dst + [n])
    ensures Progress(f0, d0, f2, d2, src, dst, todo - {n}, done + more) && done !! more
  {
    assert src + [n] in d0 && src + [n] !in f0 by { assert src + [n] <= src + [n]; }
    assert dst < dst + [n];
    ChildRelocated(f, f2, src, dst, n, more);
    RelocatedThen(f0, f, f2, src, dst, done, more);
    DoneAfterDir(f0, d0, f, d, src, dst, todo, n);
    AmongNames(Movable(f0, d0, src, dst), src, todo - {n});
    OthersUntouched(f0, d0, f, d, f2, d2, src, dst, todo, done + more, n);
    ClashUnderChild(f0, d0, f, d, src, dst, n);
    EndpointsStay(f0, f2, src, dst, done + more);
    DirsStay(d, d2, src, dst, n);
  }

  lemma FileStep(f: Files, d: set<Path>, f2: Files, src: Path, dst: Path, n: string)
    requires Wf(f, d) && Disjoint(src, dst) && src + [n] in f && dst in d
    requires f2 == if Exists(f, d, dst + [n]) then f else (f - {src + [n]})[dst + [n] := f[src + [n]]]
    ensures Wf(f2, d)
    ensures Relocated(f, f2, src, dst, if Exists(f, d, dst + [n]) then {} else {src + [n]})
  {
    if Exists(f, d, dst + [n]) {
      NothingRelocated(f, src, dst);
    } else {
      OneRelocated(f, src, dst, n);
      assert Parent(dst + [n]) == dst;
    }
  }

  /** The step for a plain file: moved, or left because its place is taken. */
  lemma ProgressFile(f0: Files, d0: set<Path>, f: Files, d: set<Path>, f2: Files,
                     src: Path, dst: Path, todo: set<string>, done: set<Path>, n: string)
    requires Progress(f0, d0, f, d, src, dst, todo, done) && Disjoint(src, dst) && Wf(f0, d0)
    requires n in todo && src + [n] in f && dst in d0 && src in d0
    requires f2 == if Exists(f, d, dst + [n]) then f else (f - {src + [n]})[dst + [n] := f[src + [n]]]
    ensures var more := if Exists(f, d, dst + [n]) then {} else {src + [n]};
            Progress(f0, d0, f2, d, src, dst, todo - {n}, done + more) && done !! more
  {
    var more := if Exists(f, d, dst + [n]) then {} else {src + [n]};
    assert src + [n] <= src + [n] && dst + [n] <= dst + [n];
    assert src + [n] in f0 && (Exists(f, d, dst + [n]) <==> Exists(f0, d0, dst + [n]));
    FileStep(f, d, f2, src, dst, n);
    RelocatedThen(f0, f, f2, src, dst, done, more);
    DoneAfterFile(f0, d0, src, dst, todo, n);
    AmongNames(Movable(f0, d0, src, dst), src, todo - {n});
    OthersUntouched(f0, d0, f, d, f2, d, src, dst, todo, done + more, n);
    EndpointsStay(f0, f2, src, dst, done + more);
  }

  // ---- How the loop ends ----

  lemma NothingMovable(files: Files, dirs: set<Path>, src: Path, dst: Path, todo: set<string>)
    requires todo == Children(files, dirs, src)
    ensures Among(Movable(files, dirs, src, dst), src, todo) == {}
  {
    forall p | p in Movable(files, dirs, src, dst) ensures p[|src|] in todo {
      assert p in files.Keys + dirs;
    }
  }

  lemma AllMovable(files: Files, dirs: set<Path>, src: Path, dst: Path)
    ensures Among(Movable(files, dirs, src, dst), src, {}) == Movable(files, dirs, src, dst)
  {
  }

  /** A clash of the whole is a clash under some child. */
  lemma ClashHasChild(files: Files, dirs: set<Path>, src: Path, dst: Path)
    requires Wf(files, dirs) && Exists(files, dirs, dst) && Clash(files, dirs, src, dst)
    requires Children(files, dirs, src) != {} ==> dst in dirs
    ensures exists n :: n in Children(files, dirs, src) && ClashUnder(files, dirs, src, dst, n)
  {
    assert src <= src && Mirror(src, dst, src) == dst;
    if d :| d < dst && d in files {
      AboveIsDir(files, dirs, dst, d);
    } else {
      var d, c :| d in dirs && src <= d && Mirror(src, dst, d) in files && Exists(files, dirs, c) && d < c;
      assert src < c && c in files.Keys + dirs;
      var n := c[|src|];
      assert n in Children(files, dirs, src);
      assert d != src;
      PrefixCases(src, d);
      assert src + [n] <= d && ClashUnder(files, dirs, src, dst, n);
    }
  }

  ghost function Height(dirs: set<Path>, src: Path): set<Path> {
    set d | d in dirs && src <= d
  }

  lemma SubsetSize<T>(a: set<T>, b: set<T>)
    requires a < b
    ensures |a| < |b|
  {
    assert b == a + (b - a) && b - a != {};
  }

  lemma ChildIsLower(f0: Files, d0: set<Path>, f: Files, d: set<Path>, src: Path, n: string)
    requires SameUnder(f0, d0, f, d, src + [n]) && src in d0
    ensures |Height(d, src + [n])| < |Height(d0, src)|
  {
    assert src in Height(d0, src) && src !in Height(d, src + [n]);
    forall x | x in Height(d, src + [n]) ensures x in Height(d0, src) {}
    SubsetSize(Height(d, src + [n]), Height(d0, src));
  }

  lemma FramesCompose(d0: set<Path>, d: set<Path>, d2: set<Path>, src: Path, dst: Path, n: string)
    requires DirsFrame(d0, d, src, dst) && DirsFrame(d, d2, src + [n], dst + [n])
    ensures DirsFrame(d0, d2, src, dst)
  {
    forall x | x in d0 && !(src <= x) ensures x in d2 {
      assert src + [n] <= x ==> src <= x;
    }
    forall x | x in d2 && !(dst <= x) ensures x in d0 || x < dst {
      assert dst + [n] <= x ==> dst <= x;
      if x < dst + [n] && |x| <= |dst| { assert x == (dst + [n])[..|x|] == dst[..|x|]; PrefixCases(x, dst); }
    }
  }

  /** The files left behind so far, after one more child. */
  lemma LeftBehindStep(f0: Files, src: Path, todo: set<string>, done: set<Path>, n: string, below: set<Path>,
                       more: set<Path>)
    requires n in todo && below == set p | p in FilesUnder(f0, src) && src + [n] <= p
    requires done <= Among(FilesUnder(f0, src), src, todo) && more <= below
    ensures |Among(FilesUnder(f0, src), src, todo - {n}) - (done + more)|
            == |Among(FilesUnder(f0, src), src, todo) - done| + |below - more|
  {
    AmongStep(FilesUnder(f0, src), src, todo, n);
    var a := Among(FilesUnder(f0, src), src, todo);
    assert (a + below) - (done + more) == (a - done) + (below - more);
  }

  /** How many files of the children already dealt with stayed behind. */
  ghost function LeftBehind(f0: Files, src: Path, todo: set<string>, done: set<Path>): nat {
    |Among(FilesUnder(f0, src), src, todo) - done|
  }

  lemma BelowDir(f0: Files, d0: set<Path>, f: Files, d: set<Path>, src: Path, n: string)
    requires Wf(f0, d0) && SameUnder(f0, d0, f, d, src + [n]) && src + [n] in d0
    ensures FilesUnder(f, src + [n]) == set p | p in FilesUnder(f0, src) && src + [n] <= p
  {
    forall p | p in f0 && src + [n] <= p ensures src + [n] < p && src < p {
      PrefixCases(src + [n], p);
    }
  }

  lemma BelowFile(f0: Files, d0: set<Path>, src: Path, n: string)
    requires Wf(f0, d0) && src + [n] in f0
    ensures {src + [n]} == set p | p in FilesUnder(f0, src) && src + [n] <= p
  {
    forall p | p in f0 && src + [n] <= p ensures p == src + [n] {
      PrefixCases(src + [n], p);
      if src + [n] < p { AboveIsDir(f0, d0, p, src + [n]); }
    }
  }

  lemma MovableAmong(f0: Files, d0: set<Path>, src: Path, dst: Path, todo: set<string>)
    ensures Among(Movable(f0, d0, src, dst), src, todo) <= Among(FilesUnder(f0, src), src, todo)
  {
  }

  lemma DirCounted(f0: Files, d0: set<Path>, f: Files, d: set<Path>, src: Path, dst: Path,
                   todo: set<string>, done: set<Path>, n: string, more: set<Path>)
    requires Wf(f0, d0) && SameUnder(f0, d0, f, d, src + [n]) && src + [n] in d0 && n in todo
    requires done == Among(Movable(f0, d0, src, dst), src, todo) && more <= FilesUnder(f, src + [n])
    ensures LeftBehind(f0, src, todo - {n}, done + more)
            == LeftBehind(f0, src, todo, done) + |FilesUnder(f, src + [n]) - more|
  {
    MovableAmong(f0, d0, src, dst, todo);
    BelowDir(f0, d0, f, d, src, n);
    LeftBehindStep(f0, src, todo, done, n, FilesUnder(f, src + [n]), more);
  }

  lemma FileCounted(f0: Files, d0: set<Path>, src: Path, dst: Path,
                    todo: set<string>, done: set<Path>, n: string, more: set<Path>)
    requires Wf(f0, d0) && src + [n] in f0 && n in todo && more <= {src + [n]}
    requires done == Among(Movable(f0, d0, src, dst), src, todo)
    ensures LeftBehind(f0, src, todo - {n}, done + more) == LeftBehind(f0, src, todo, done) + 1 - |more|
  {
    MovableAmong(f0, d0, src, dst, todo);
    BelowFile(f0, d0, src, n);
    LeftBehindStep(f0, src, todo, done, n, {src + [n]}, more);
    if more != {} { assert more == {src + [n]}; }
  }

  /** A child's failed merge is the whole's. */
  lemma FailedChild(f0: Files, d0: set<Path>, f: Files, d: set<Path>, f2: Files,
                    src: Path, dst: Path, todo: set<string>, done: set<Path>, n: string, more: set<Path>)
    requires Progress(f0, d0, f, d, src, dst, todo, done) && Disjoint(src, dst) && Wf(f0, d0)
    requires n in todo && src + [n] in d && Exists(f0, d0, dst) && src in d0
    requires Relocated(f, f2, src + [n], dst + [n], more) && more <= Movable(f, d, src + [n], dst + [n])
    requires Clash(f, d, src + [n], dst + [n])
    ensures Clash(f0, d0, src, dst) && Relocated(f0, f2, src, dst, done + more)
    ensures done + more <= Movable(f0, d0, src, dst)
  {
    assert src + [n] in d0 && src + [n] !in f0 by { assert src + [n] <= src + [n]; }
    ChildRelocated(f, f2, src, dst, n, more);
    RelocatedThen(f0, f, f2, src, dst, done, more);
    MovableUnderChild(f0, d0, f, d, src, dst, n);
    ClashUnderChild(f0, d0, f, d, src, dst, n);
  }

  /** A plain file cannot move into a destination that is itself a file. */
  lemma FileMeetsFile(f0: Files, d0: set<Path>, src: Path, dst: Path, n: string)
    requires src in d0 && dst in f0 && src + [n] in f0
    ensures Clash(f0, d0, src, dst)
  {
    assert src <= src && Mirror(src, dst, src) == dst;
    assert src in d0 && Mirror(src, dst, src) in f0 && Exists(f0, d0, src + [n]) && src < src + [n];
  }

  lemma RemovingEmptyKeepsWf(files: Files, dirs: set<Path>, src: Path)
    requires Wf(files, dirs) && src != [] && Children(files, dirs, src) == {}
    ensures Wf(files, dirs - {src})
  {
    forall p | Exists(files, dirs, p) && src < p ensures p[|src|] in Children(files, dirs, src) {
      assert p in files.Keys + dirs;
    }
  }

  lemma ChildExists(files: Files, dirs: set<Path>, src: Path, n: string)
    requires Wf(files, dirs) && n in Children(files, dirs, src)
    ensures Exists(files, dirs, src + [n])
  {
    var p :| p in files.Keys + dirs && src < p && p[|src|] == n;
    assert p[..|src| + 1] == src + [n];
    PrefixCases(src + [n], p);
    if src + [n] < p { AboveIsDir(files, dirs, p, src + [n]); }
  }

  // ---- Whole-directory renames ----

  /** Under a free destination nothing is taken and nothing meets. */
  lemma FreeDestination(files: Files, dirs: set<Path>, src: Path, dst: Path)
    requires Wf(files, dirs) && !Exists(files, dirs, dst)
    ensures Free(files, dirs, dst) && Movable(files, dirs, src, dst) == FilesUnder(files, src)
    ensures Clash(files, dirs, src, dst) <==> exists d :: d in files && d < dst
  {
    forall p | dst <= p ensures p !in files && p !in dirs { FreeBelow(files, dirs, dst, p); }
    forall p | src <= p ensures !Exists(files, dirs, Mirror(src, dst, p)) { MirrorBack(src, dst, p); }
  }

  lemma RenameFrame(dirs: set<Path>, src: Path, dst: Path)
    requires Disjoint(src, dst)
    ensures DirsFrame(dirs, RenamedDirs(dirs, src, dst), src, dst)
  {
    forall x | !(dst <= x) && x in RenamedDirs(dirs, src, dst) ensures x in dirs || x < dst {
      forall d | d in dirs && src <= d ensures Mirror(src, dst, d) != x { MirrorBack(src, dst, d); }
    }
  }

  lemma MovedAreBelow(files: Files, dirs: set<Path>, src: Path, dst: Path)
    requires Wf(files, dirs) && src in dirs && Free(files, dirs, dst) && Disjoint(src, dst)
    ensures FilesUnder(RenamedFiles(files, src, dst), dst) == Mirrors(src, dst, FilesUnder(files, src))
  {
    forall p | p in files && src < p ensures dst < Mirror(src, dst, p) {
      MirrorBack(src, dst, p);
      PrefixCases(dst, Mirror(src, dst, p));
    }
  }

  lemma DestinationIsDir(files: Files, dirs: set<Path>, dst: Path, n: string)
    requires Wf(files, dirs) && Exists(files, dirs, dst + [n])
    ensures dst in dirs
  {
    assert Parent(dst + [n]) == dst;
  }

  lemma NothingLeftBehind(files: Files, dirs: set<Path>, src: Path)
    ensures Among(FilesUnder(files, src), src, Children(files, dirs, src)) == {}
  {
    forall p | p in FilesUnder(files, src) ensures p[|src|] in Children(files, dirs, src) {
      assert p in files.Keys + dirs;
    }
  }

  lemma AllAccounted(files: Files, src: Path)
    ensures Among(FilesUnder(files, src), src, {}) == FilesUnder(files, src)
  {
  }

  /** Below the children already dealt with, every directory still holds a file. */
  ghost predicate NoHollow(f: Files, d: set<Path>, src: Path, todo: set<string>) {
    forall x :: x in d && src < x && x[|src|] !in todo ==> exists p :: p in f && x < p
  }

  ghost predicate Inhabited(f: Files, d: set<Path>, src: Path) {
    forall x :: x in d && src <= x ==> exists p :: p in f && x < p
  }

  lemma HollowDir(f: Files, d: set<Path>, f2: Files, d2: set<Path>, src: Path, dst: Path,
                  todo: set<string>, n: string, more: set<Path>)
    requires NoHollow(f, d, src, todo) && Inhabited(f2, d2, src + [n]) && Disjoint(src, dst)
    requires Relocated(f, f2, src + [n], dst + [n], more) && DirsFrame(d, d2, src + [n], dst + [n])
    ensures NoHollow(f2, d2, src, todo - {n})
  {
    forall x | x in d2 && src < x && x[|src|] !in todo - {n} ensures exists p :: p in f2 && x < p {
      if x[|src|] == n {
        assert x[..|src| + 1] == src + [n];
      } else {
        DisjointUnder(src, dst, x);
        NotAbove(src, dst, n, x);
        assert dst + [n] <= x ==> dst <= x;
        var p :| p in f && x < p;
        assert p[|src|] == x[|src|];
        assert p !in more && p in f2;
      }
    }
  }

  lemma HollowFile(f: Files, d: set<Path>, f2: Files, src: Path, dst: Path, todo: set<string>, n: string)
    requires Wf(f, d) && NoHollow(f, d, src, todo) && src + [n] in f
    requires forall p :: p in f && p != src + [n] ==> p in f2
    ensures NoHollow(f2, d, src, todo - {n})
  {
    forall x | x in d && src < x && x[|src|] !in todo - {n} ensures exists p :: p in f2 && x < p {
      assert x[..|src| + 1] == src + [x[|src|]];
      if src + [n] <= x {
        PrefixCases(src + [n], x);
        AboveIsDir(f, d, x, src + [n]);
        assert false;
      }
      var p :| p in f && x < p;
    }
  }

  lemma HollowDone(f: Files, d: set<Path>, src: Path)
    requires Wf(f, d) && NoHollow(f, d, src, {})
    ensures Inhabited(f, if Children(f, d, src) == {} then d - {src} else d, src)
  {
    forall x | x in d && src <= x && (x == src ==> Children(f, d, src) != {}) ensures exists p :: p in f && x < p {
      if x == src {
        var n :| n in Children(f, d, src);
        ChildExists(f, d, src, n);
        assert src < src + [n];
        if src + [n] in d {
          var p :| p in f && src + [n] < p;
          assert src < p;
        }
      } else {
        PrefixCases(src, x);
      }
    }
  }

  lemma HollowStart(f: Files, d: set<Path>, src: Path)
    ensures NoHollow(f, d, src, Children(f, d, src))
  {
    forall x | x in d && src < x ensures x[|src|] in Children(f, d, src) {
      assert x in f.Keys + d;
    }
  }

  lemma RenameLeavesNothing(files: Files, dirs: set<Path>, src: Path, dst: Path)
    requires Disjoint(src, dst) && Free(files, dirs, dst)
    ensures Inhabited(RenamedFiles(files, src, dst), RenamedDirs(dirs, src, dst), src)
  {
    forall x | x in RenamedDirs(dirs, src, dst) ensures !(src <= x) {
      if x in Ancestors(dst) {
        assert x <= dst;
      } else if d :| d in dirs && src <= d && Mirror(src, dst, d) == x {
        MirrorBack(src, dst, d);
        DisjointUnder(src, dst, x);
      }
    }
  }

  lemma NoClashLeft(f0: Files, d0: set<Path>, f: Files, d: set<Path>, src: Path, dst: Path, done: set<Path>)
    requires Wf(f0, d0) && Exists(f0, d0, dst) && Progress(f0, d0, f, d, src, dst, {}, done)
    ensures !Clash(f0, d0, src, dst)
  {
    if Clash(f0, d0, src, dst) { ClashHasChild(f0, d0, src, dst); }
  }

  lemma {:induction false} MirrorCount(src: Path, dst: Path, done: set<Path>)
    requires forall p :: p in done ==> src < p
    ensures |Mirrors(src, dst, done)| == |done|
    decreases done
  {
    if done != {} {
      var p :| p in done;
      MirrorCount(src, dst, done - {p});
      assert Mirrors(src, dst, done) == Mirrors(src, dst, done - {p}) + {Mirror(src, dst, p)};
      forall q | q in done - {p} ensures Mirror(src, dst, q) != Mirror(src, dst, p) {
        if Mirror(src, dst, q) == Mirror(src, dst, p) { MirrorInjective(src, dst, p, q); }
      }
    }
  }

  /** A child directory was merged: the loop's state after it. */
  lemma DirChildDone(f0: Files, d0: set<Path>, f: Files, d: set<Path>, f2: Files, d2: set<Path>,
                     src: Path, dst: Path, todo: set<string>, done: set<Path>, n: string, more: set<Path>)
    requires Progress(f0, d0, f, d, src, dst, todo, done) && Disjoint(src, dst) && Wf(f0, d0) && Wf(f2, d2)
    requires n in todo && src + [n] in d && Exists(f0, d0, dst) && src in d0 && NoHollow(f, d, src, todo)
    requires Relocated(f, f2, src + [n], dst + [n], more) && more == Movable(f, d, src + [n], dst + [n])
    requires DirsFrame(d, d2, src + [n], dst + [n]) && !Clash(f, d, src + [n], dst + [n])
    requires Inhabited(f2, d2, src + [n])
    ensures Progress(f0, d0, f2, d2, src, dst, todo - {n}, done + more) && done !! more
    ensures NoHollow(f2, d2, src, todo - {n})
    ensures LeftBehind(f0, src, todo - {n}, done + more)
            == LeftBehind(f0, src, todo, done) + |FilesUnder(f, src + [n]) - more|
  {
    ProgressDir(f0, d0, f, d, f2, d2, src, dst, todo, done, n, more);
    HollowDir(f, d, f2, d2, src, dst, todo, n, more);
    assert src + [n] <= src + [n];
    DirCounted(f0, d0, f, d, src, dst, todo, done, n, more);
  }

  /** A child file was moved, or left where it is: the loop's state after it. */
  lemma FileChildDone(f0: Files, d0: set<Path>, f: Files, d: set<Path>, f2: Files,
                      src: Path, dst: Path, todo: set<string>, done: set<Path>, n: string, more: set<Path>)
    requires Progress(f0, d0, f, d, src, dst, todo, done) && Disjoint(src, dst) && Wf(f0, d0)
    requires n in todo && src + [n] in f && dst in d0 && src in d0 && NoHollow(f, d, src, todo)
    requires f2 == if Exists(f, d, dst + [n]) then f else (f - {src + [n]})[dst + [n] := f[src + [n]]]
    requires more == if Exists(f, d, dst + [n]) then {} else {src + [n]}
    ensures Progress(f0, d0, f2, d, src, dst, todo - {n}, done + more) && done !! more
    ensures NoHollow(f2, d, src, todo - {n})
    ensures LeftBehind(f0, src, todo - {n}, done + more) == LeftBehind(f0, src, todo, done) + 1 - |more|
  {
    assert src + [n] <= src + [n];
    FileCounted(f0, d0, src, dst, todo, done, n, more);
    HollowFile(f, d, f2, src, dst, todo, n);
    ProgressFile(f0, d0, f, d, f2, src, dst, todo, done, n);
  }

  /** The loop is through: everything movable has moved, and the rest is counted. */
  lemma LoopDone(f0: Files, d0: set<Path>, f: Files, d: set<Path>, src: Path, dst: Path, done: set<Path>)
    requires Wf(f0, d0) && Exists(f0, d0, dst) && Progress(f0, d0, f, d, src, dst, {}, done) && NoHollow(f, d, src, {})
    ensures !Clash(f0, d0, src, dst) && done == Movable(f0, d0, src, dst)
    ensures LeftBehind(f0, src, {}, done) == |FilesUnder(f0, src) - done|
    ensures Inhabited(f, if Children(f, d, src) == {} then d - {src} else d, src)
  {
    AllMovable(f0, d0, src, dst);
    AllAccounted(f0, src);
    NoClashLeft(f0, d0, f, d, src, dst, done);
    HollowDone(f, d, src);
  }

  /** Before the first child nothing has moved. */
  lemma LoopBegins(f0: Files, d0: set<Path>, src: Path, dst: Path)
    requires Wf(f0, d0) && src in d0
    ensures Progress(f0, d0, f0, d0, src, dst, Children(f0, d0, src), {})
    ensures NoHollow(f0, d0, src, Children(f0, d0, src)) && LeftBehind(f0, src, Children(f0, d0, src), {}) == 0
  {
    NothingMovable(f0, d0, src, dst, Children(f0, d0, src));
    NothingLeftBehind(f0, d0, src);
    NothingRelocated(f0, src, dst);
    HollowStart(f0, d0, src);
  }

  // ---- The file system ----

  class FileSystem {
    var files: Files
    var dirs: set<Path>

    /** The destination is free: create what is above it and rename. */
    method RenameTree(src: Path, dst: Path) returns (ok: bool, moved: nat, ghost done: set<Path>)
      requires Wf(files, dirs) && src in dirs && Disjoint(src, dst) && !Exists(files, dirs, dst)
      modifies this
      ensures Wf(files, dirs) && ok == !Clash(old(files), old(dirs), src, dst)
      ensures Relocated(old(files), files, src, dst, done)
      ensures ok ==> done == Movable(old(files), old(dirs), src, dst) == FilesUnder(old(files), src) && moved == |done|
      ensures ok ==> Inhabited(files, dirs, src)
      ensures !ok ==> done == {}
      ensures DirsFrame(old(dirs), dirs, src, dst)
    {
      FreeDestination(files, dirs, src, dst);
      if exists d | d in files :: d < dst {
        NothingRelocated(files, src, dst);
        return false, 0, {};
      }
      RenameRelocates(files, src, dst);
      RenameKeepsWf(files, dirs, src, dst);
      RenameFrame(dirs, src, dst);
      RenameLeavesNothing(files, dirs, src, dst);
      MovedAreBelow(files, dirs, src, dst);
      done := FilesUnder(files, src);
      MirrorCount(src, dst, done);
      files, dirs := RenamedFiles(files, src, dst), RenamedDirs(dirs, src, dst);
      var arrived := set p | p in files && dst < p;
      assert arrived == FilesUnder(files, dst);
      ok, moved := true, |arrived|;
    }

    /** Moves everything under `src` into `dst`. When a non-empty source
        directory meets a file the move fails part-way (`ok` is false); what had
        moved by then is `done`. */
    method MergeTree(src: Path, dst: Path) returns (ok: bool, moved: nat, collisions: nat, ghost done: set<Path>)
      requires Wf(files, dirs) && src in dirs && Disjoint(src, dst)
      modifies this
      ensures Wf(files, dirs) && ok == !Clash(old(files), old(dirs), src, dst)
      ensures Relocated(old(files), files, src, dst, done) && done <= Movable(old(files), old(dirs), src, dst)
      ensures ok ==> done == Movable(old(files), old(dirs), src, dst)
      ensures ok ==> moved == |done| && collisions == |FilesUnder(old(files), src) - done|
      ensures ok ==> Inhabited(files, dirs, src)
      ensures DirsFrame(old(dirs), dirs, src, dst)
      decreases |Height(dirs, src)|, 2
    {
      if !Exists(files, dirs, dst) {
        ok, moved, done := RenameTree(src, dst);
        collisions := 0;
        return;
      }
      ghost var f0, d0 := files, dirs;
      ok, moved, collisions, done := MergeChildren(src, dst);
      if !ok { return; }
      LoopDone(f0, d0, files, dirs, src, dst, done);
      if Children(files, dirs, src) == {} {
        RemovingEmptyKeepsWf(files, dirs, src);
        dirs := dirs - {src};
      }
    }

    /** The children of `src`, one by one; stops at the first that fails. */
    method MergeChildren(src: Path, dst: Path) returns (ok: bool, moved: nat, collisions: nat, ghost done: set<Path>)
      requires Wf(files, dirs) && src in dirs && Disjoint(src, dst) && Exists(files, dirs, dst)
      modifies this
      ensures ok ==> Progress(old(files), old(dirs), files, dirs, src, dst, {}, done) && NoHollow(files, dirs, src, {})
      ensures ok ==> moved == |done| && collisions == LeftBehind(old(files), src, {}, done)
      ensures !ok ==> Clash(old(files), old(dirs), src, dst) && Wf(files, dirs)
                      && Relocated(old(files), files, src, dst, done)
                      && done <= Movable(old(files), old(dirs), src, dst)
      ensures DirsFrame(old(dirs), dirs, src, dst)
      decreases |Height(dirs, src)|, 1
    {
      ghost var f0, d0 := files, dirs;
      ok, moved, collisions, done := true, 0, 0, {};
      var todo := Children(files, dirs, src);
      LoopBegins(f0, d0, src, dst);
      while todo != {}
        invariant todo <= Children(f0, d0, src) && ok
        invariant Progress(f0, d0, files, dirs, src, dst, todo, done)
        invariant DirsFrame(d0, dirs, src, dst) && NoHollow(files, dirs, src, todo)
        invariant moved == |done| && collisions == LeftBehind(f0, src, todo, done)
        decreases todo
      {
        var n :| n in todo;
        var m, c;
        ghost var more;
        ok, m, c, more := MergeChild(src, dst, n, f0, d0, todo, done);
        if !ok {
          return false, moved + m, collisions + c, done + more;
        }
        moved, collisions := moved + m, collisions + c;
        done := done + more;
        todo := todo - {n};
      }
    }

    /** One child of `src`: a directory is merged in turn, a file moves unless
        its place is taken. */
    method MergeChild(src: Path, dst: Path, n: string, ghost f0: Files, ghost d0: set<Path>,
                      ghost todo: set<string>, ghost done: set<Path>)
      returns (ok: bool, m: nat, c: nat, ghost more: set<Path>)
      requires Wf(f0, d0) && src in d0 && Exists(f0, d0, dst) && Disjoint(src, dst)
      requires Progress(f0, d0, files, dirs, src, dst, todo, done) && DirsFrame(d0, dirs, src, dst)
      requires NoHollow(files, dirs, src, todo)
      requires n in todo && todo <= Children(f0, d0, src)
      modifies this
      ensures ok ==> Progress(f0, d0, files, dirs, src, dst, todo - {n}, done + more) && done !! more
      ensures ok ==> NoHollow(files, dirs, src, todo - {n})
      ensures ok ==> m == |more|
                     && LeftBehind(f0, src, todo - {n}, done + more) == LeftBehind(f0, src, todo, done) + c
      ensures !ok ==> Clash(f0, d0, src, dst) && Wf(files, dirs) && Relocated(f0, files, src, dst, done + more)
                      && done + more <= Movable(f0, d0, src, dst)
      ensures DirsFrame(d0, dirs, src, dst)
      decreases |Height(d0, src)|, 0
    {
      ghost var f, d := files, dirs;
      var item := src + [n];
      assert Exists(f, d, item) && (item in d0 <==> item in d) && (item in f0 <==> item in f) by {
        ChildExists(f0, d0, src, n);
        assert src + [n] <= src + [n];
      }
      if src + [n] in dirs {
        ChildDisjoint(src, dst, n);
        ChildIsLower(f0, d0, f, d, src, n);
        ok, m, c, more := MergeTree(src + [n], dst + [n]);
        FramesCompose(d0, d, dirs, src, dst, n);
        if ok {
          DirChildDone(f0, d0, f, d, files, dirs, src, dst, todo, done, n, more);
        } else {
          FailedChild(f0, d0, f, d, files, src, dst, todo, done, n, more);
        }
      } else if Exists(files, dirs, dst + [n]) {
        ok, m, c, more := true, 0, 1, {};
        DestinationIsDir(f, d, dst, n);
        FileChildDone(f0, d0, f, d, files, src, dst, todo, done, n, more);
      } else if dst !in dirs {
        ok, m, c, more := false, 0, 0, {};
        FileMeetsFile(f0, d0, src, dst, n);
        MovableAmong(f0, d0, src, dst, todo);
        assert done + more == done;
      } else {
        ok, m, c, more := true, 1, 0, {src + [n]};
        files := (files - {src + [n]})[dst + [n] := files[src + [n]]];
        FileChildDone(f0, d0, f, d, files, src, dst, todo, done, n, more);
      }
    }
  }
}
