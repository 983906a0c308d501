/** Healing a split album: all rows that agree on normalised title and artist
    are merged into the best of them. */
module AutoHeal {
  import opened Prelude
  import opened StableSort
  import opened AlbumMerge
  import opened LibraryIndex

  datatype Match = Match(id: AlbumId, hasRelease: bool, tracks: nat)

  /** Rows with a release id first, then those with more tracks. */
  predicate Above(x: Match, y: Match) {
    if x.hasRelease != y.hasRelease then x.hasRelease else x.tracks > y.tracks
  }

  /** The row belongs to the album: its artist exists and both names agree. */
  predicate Matching(nm: Naming, artists: map<string, string>, a: AlbumRow, title: string, artist: string) {
    && a.artist in artists
    && nm.grouping(a.title) == nm.grouping(title) && nm.norm(artists[a.artist]) == nm.norm(artist)
  }

  function Matches(nm: Naming, l: Lib, albums: seq<AlbumRow>, title: string, artist: string): (ms: seq<Match>)
    ensures forall m :: m in ms <==>
      exists a :: a in albums && Matching(nm, l.artists, a, title, artist) && m == MatchOf(l, a)
  {
    if albums == [] then []
    else (if Matching(nm, l.artists, albums[0], title, artist) then [MatchOf(l, albums[0])] else [])
         + Matches(nm, l, albums[1..], title, artist)
  }

  function MatchOf(l: Lib, a: AlbumRow): Match {
    Match(a.id, a.release.Some?, |Members(l.tracks, a.id)|)
  }

  /** Merging into a fixed canonical row, as a function of state and source. */
  function Merging(canonical: AlbumId, env: World): (Lib, AlbumId) -> Outcome {
    (l, source) => MergedInto(l, canonical, source, env)
  }

  predicate Worked(o: Outcome) {
    o.moved > 0 || o.already > 0 || o.collisions > 0
  }

  function MergedAll(l: Lib, rest: seq<Match>, merge: (Lib, AlbumId) -> Outcome): (Lib, nat) {
    if rest == [] then (l, 0)
    else
      var (before, merged) := MergedAll(l, rest[..|rest| - 1], merge);
      var o := merge(before, rest[|rest| - 1].id);
      (o.lib, if Worked(o) then merged + 1 else merged)
  }

  function Ranked(nm: Naming, l: Lib, title: string, artist: string): seq<Match> {
    Sort(Matches(nm, l, l.albums, title, artist), Above)
  }

  function Healed(nm: Naming, l: Lib, title: string, artist: string, env: World): (Lib, nat)
  {
    var ms := Ranked(nm, l, title, artist);
    if title == "" || artist == "" || |ms| < 2 then (l, 0)
    else MergedAll(l, ms[1..], Merging(ms[0].id, env))
  }

  lemma MergedAllStep(l: Lib, rest: seq<Match>, i: nat, merge: (Lib, AlbumId) -> Outcome)
    requires i < |rest|
    ensures var sofar := MergedAll(l, rest[..i], merge);
            var o := merge(sofar.0, rest[i].id);
            MergedAll(l, rest[..i + 1], merge) == (o.lib, sofar.1 + if Worked(o) then 1 else 0)
  {
    assert rest[..i + 1][..i] == rest[..i];
  }

  method AutoHeal(nm: Naming, lib: Library, title: string, artist: string, env: World)
    returns (merged: nat)
    modifies lib
    ensures (lib.Value(), merged) == Healed(nm, old(lib.Value()), title, artist, env)
  {
    if title == "" || artist == "" { return 0; }
    ghost var l := lib.Value();
    var ms := Ranked(nm, lib.Value(), title, artist);
    if |ms| < 2 { return 0; }
    merged := MergeRest(lib, ms[0].id, ms[1..], env);
  }

  method MergeRest(lib: Library, canonical: AlbumId, rest: seq<Match>, env: World)
    returns (merged: nat)
    modifies lib
    ensures (lib.Value(), merged) == MergedAll(old(lib.Value()), rest, Merging(canonical, env))
  {
    ghost var l, merge := lib.Value(), Merging(canonical, env);
    merged := 0;
    var i := 0;
    while i < |rest|
      invariant i <= |rest| && SoFar(lib.Value(), merged, l, rest[..i], merge)
    {
      merged := MergeNext(lib, canonical, rest, i, env, merged, l, merge);
      i := i + 1;
    }
    assert rest[..|rest|] == rest;
  }

  method MergeNext(lib: Library, canonical: AlbumId, rest: seq<Match>, i: nat, env: World, merged: nat,
                   ghost l: Lib, ghost merge: (Lib, AlbumId) -> Outcome)
    returns (more: nat)
    requires i < |rest| && merge == Merging(canonical, env) && SoFar(lib.Value(), merged, l, rest[..i], merge)
    modifies lib
    ensures SoFar(lib.Value(), more, l, rest[..i + 1], merge)
  {
    SoFarStep(l, rest, i, merge, merged);
    var worked := MergeOne(lib, canonical, rest[i].id, env, merge);
    more := merged + if worked then 1 else 0;
  }

  /** State and count after the merges done so far. */
  ghost predicate SoFar(now: Lib, merged: nat, l: Lib, done: seq<Match>, merge: (Lib, AlbumId) -> Outcome) {
    now == MergedAll(l, done, merge).0 && merged == MergedAll(l, done, merge).1
  }

  lemma SoFarStep(l: Lib, rest: seq<Match>, i: nat, merge: (Lib, AlbumId) -> Outcome, merged: nat)
    requires i < |rest| && merged == MergedAll(l, rest[..i], merge).1
    ensures var o := merge(MergedAll(l, rest[..i], merge).0, rest[i].id);
            SoFar(o.lib, merged + if Worked(o) then 1 else 0, l, rest[..i + 1], merge)
  {
    MergedAllStep(l, rest, i, merge);
  }

  method MergeOne(lib: Library, canonical: AlbumId, source: AlbumId, env: World,
                  ghost merge: (Lib, AlbumId) -> Outcome)
    returns (worked: bool)
    requires merge == Merging(canonical, env)
    modifies lib
    ensures var o := merge(old(lib.Value()), source); lib.Value() == o.lib && worked == Worked(o)
  {
    var moved, already, collisions := lib.MergeAlbums(canonical, source, env);
    worked := moved > 0 || already > 0 || collisions > 0;
  }

  // ---- The rows ----

  /** Primary keys are unique. */
  ghost predicate DistinctIds(albums: seq<AlbumRow>) {
    forall i, j :: 0 <= i < j < |albums| ==> albums[i].id != albums[j].id
  }

  lemma {:induction false} WithoutKeepsDistinct(albums: seq<AlbumRow>, id: AlbumId)
    requires DistinctIds(albums)
    ensures DistinctIds(Without(albums, id))
  {
    if albums != [] {
      WithoutKeepsDistinct(albums[1..], id);
      var rest := Without(albums[1..], id);
      forall j | 0 <= j < |rest| ensures rest[j].id != albums[0].id {
        assert rest[j] in rest && rest[j] in albums[1..];
      }
    }
  }

  lemma FindSome(albums: seq<AlbumRow>, a: AlbumRow)
    requires a in albums && DistinctIds(albums)
    ensures Find(albums, a.id) < |albums| && albums[Find(albums, a.id)] == a
  {
    var i :| 0 <= i < |albums| && albums[i] == a;
  }

  /** Rows other than those merged away stay, but for the canonical row's
      release id; and none is new. */
  ghost predicate Kept(before: seq<AlbumRow>, after: seq<AlbumRow>, canonical: AlbumId, gone: set<AlbumId>) {
    && DistinctIds(after)
    && (forall a :: a in before && a.id !in gone && a.id != canonical ==> a in after)
    && (forall a :: a in before && a.id == canonical ==> exists b :: b in after && Same(a, b))
    && (forall b :: b in after ==>
          b.id !in gone && exists a :: a in before && Same(a, b) && (b.id != canonical ==> a == b))
  }

  predicate Same(a: AlbumRow, b: AlbumRow) {
    SameAlbum(a, b) && (a.release.Some? ==> b.release == a.release)
  }

  lemma OneMergeKeeps(albums: seq<AlbumRow>, canonical: AlbumId, source: AlbumId, release: Option<string>)
    requires DistinctIds(albums) && canonical != source && Find(albums, canonical) < |albums|
    ensures Kept(albums, MergedAlbums(albums, canonical, source, release), canonical, {source})
  {
    var c := Find(albums, canonical);
    var filled := albums[c := albums[c].(release := albums[c].release.Or(release))];
    WithoutKeepsDistinct(filled, source);
    assert filled[c] in filled;
    forall a | a in albums ensures a.id != canonical ==> a in filled {
      var i :| 0 <= i < |albums| && albums[i] == a;
      assert a.id != canonical ==> filled[i] == a;
    }
    forall b | b in filled ensures exists a :: a in albums && Same(a, b) && (b.id != canonical ==> a == b) {
      var i :| 0 <= i < |filled| && filled[i] == b;
      assert albums[i] in albums && Same(albums[i], b);
    }
    forall a | a in albums && a.id == canonical ensures a == albums[c] {
      FindSome(albums, a);
    }
  }

  lemma SameThen(x: AlbumRow, y: AlbumRow, z: AlbumRow)
    requires Same(x, y) && Same(y, z)
    ensures Same(x, z)
  {
  }

  lemma CanonicalStays(a: seq<AlbumRow>, b: seq<AlbumRow>, c: seq<AlbumRow>, canonical: AlbumId, g: set<AlbumId>,
                       h: set<AlbumId>, x: AlbumRow)
    requires Kept(a, b, canonical, g) && Kept(b, c, canonical, h) && x in a && x.id == canonical
    ensures exists z :: z in c && Same(x, z)
  {
    var y :| y in b && Same(x, y);
    var z :| z in c && Same(y, z);
    SameThen(x, y, z);
  }

  lemma NoneIsNew(a: seq<AlbumRow>, b: seq<AlbumRow>, c: seq<AlbumRow>, canonical: AlbumId, g: set<AlbumId>,
                  h: set<AlbumId>, z: AlbumRow)
    requires Kept(a, b, canonical, g) && Kept(b, c, canonical, h) && z in c
    ensures z.id !in g + h && exists x :: x in a && Same(x, z) && (z.id != canonical ==> x == z)
  {
    var y :| y in b && Same(y, z) && (z.id != canonical ==> y == z);
    var x :| x in a && Same(x, y) && (y.id != canonical ==> x == y);
    SameThen(x, y, z);
  }

  lemma KeptThen(a: seq<AlbumRow>, b: seq<AlbumRow>, c: seq<AlbumRow>, canonical: AlbumId, g: set<AlbumId>,
                 h: set<AlbumId>)
    requires Kept(a, b, canonical, g) && Kept(b, c, canonical, h)
    ensures Kept(a, c, canonical, g + h)
  {
    forall x | x in a && x.id == canonical ensures exists z :: z in c && Same(x, z) {
      CanonicalStays(a, b, c, canonical, g, h, x);
    }
    forall z | z in c
      ensures z.id !in g + h && exists x :: x in a && Same(x, z) && (z.id != canonical ==> x == z)
    {
      NoneIsNew(a, b, c, canonical, g, h, z);
    }
  }

  ghost function IdsOf(ms: seq<Match>): set<AlbumId> {
    set m | m in ms :: m.id
  }

  lemma OneMergeKeepsRows(l: Lib, canonical: AlbumId, source: AlbumId, env: World)
    requires DistinctIds(l.albums) && Mergeable(l, canonical, source)
    ensures var after := MergedInto(l, canonical, source, env).lib;
            after.artists == l.artists && Kept(l.albums, after.albums, canonical, {source})
  {
    var release := MergedRelease(l, canonical, source, env);
    OneMergeKeeps(l.albums, canonical, source, release);
  }

  /** What a merge does to the album rows, whatever else it does. */
  ghost predicate RowsMerge(canonical: AlbumId, merge: (Lib, AlbumId) -> Outcome) {
    forall l: Lib, id: AlbumId :: DistinctIds(l.albums) && Mergeable(l, canonical, id) ==>
      merge(l, id).lib.artists == l.artists && Kept(l.albums, merge(l, id).lib.albums, canonical, {id})
  }

  lemma MergingRows(canonical: AlbumId, env: World)
    ensures RowsMerge(canonical, Merging(canonical, env))
  {
    forall l: Lib, id: AlbumId | DistinctIds(l.albums) && Mergeable(l, canonical, id)
      ensures var after := Merging(canonical, env)(l, id).lib;
              after.artists == l.artists && Kept(l.albums, after.albums, canonical, {id})
    {
      OneMergeKeepsRows(l, canonical, id, env);
    }
  }

  /** The rows to merge: present, distinct, and not the canonical one. */
  ghost predicate Sources(albums: seq<AlbumRow>, canonical: AlbumId, rest: seq<Match>) {
    && DistinctIds(albums) && Find(albums, canonical) < |albums|
    && (forall i :: 0 <= i < |rest| ==> rest[i].id != canonical && Find(albums, rest[i].id) < |albums|)
    && (forall i, j :: 0 <= i < j < |rest| ==> rest[i].id != rest[j].id)
  }

  lemma IdsOfSnoc(rest: seq<Match>)
    requires rest != []
    ensures IdsOf(rest) == IdsOf(rest[..|rest| - 1]) + {rest[|rest| - 1].id}
  {
    assert rest == rest[..|rest| - 1] + [rest[|rest| - 1]];
  }

  lemma LastIsFree(albums: seq<AlbumRow>, canonical: AlbumId, rest: seq<Match>)
    requires rest != [] && Sources(albums, canonical, rest)
    ensures Sources(albums, canonical, rest[..|rest| - 1])
    ensures rest[|rest| - 1].id !in IdsOf(rest[..|rest| - 1]) && canonical !in IdsOf(rest[..|rest| - 1])
  {
  }

  lemma {:induction false} MergesKeepRows(l: Lib, canonical: AlbumId, rest: seq<Match>,
                                          merge: (Lib, AlbumId) -> Outcome)
    requires RowsMerge(canonical, merge) && Sources(l.albums, canonical, rest)
    ensures var after := MergedAll(l, rest, merge).0;
            after.artists == l.artists && Kept(l.albums, after.albums, canonical, IdsOf(rest))
    decreases |rest|
  {
    if rest == [] {
      forall a | a in l.albums ensures Same(a, a) {}
    } else {
      var front, last := rest[..|rest| - 1], rest[|rest| - 1].id;
      LastIsFree(l.albums, canonical, rest);
      MergesKeepRows(l, canonical, front, merge);
      var before := MergedAll(l, front, merge).0;
      StillMergeable(l, before, canonical, IdsOf(front), last);
      KeptThen(l.albums, before.albums, merge(before, last).lib.albums, canonical, IdsOf(front), {last});
      IdsOfSnoc(rest);
    }
  }

  /** What was not merged away can still be merged. */
  lemma StillMergeable(l: Lib, before: Lib, canonical: AlbumId, gone: set<AlbumId>, last: AlbumId)
    requires Kept(l.albums, before.albums, canonical, gone) && canonical !in gone && last !in gone && last != canonical
    requires Find(l.albums, canonical) < |l.albums| && Find(l.albums, last) < |l.albums|
    ensures Mergeable(before, canonical, last) && DistinctIds(before.albums)
  {
    StillThere(l.albums, before.albums, canonical, gone, canonical);
    StillThere(l.albums, before.albums, canonical, gone, last);
  }

  lemma StillThere(before: seq<AlbumRow>, after: seq<AlbumRow>, canonical: AlbumId, gone: set<AlbumId>, id: AlbumId)
    requires Kept(before, after, canonical, gone) && id !in gone && Find(before, id) < |before|
    ensures Find(after, id) < |after|
  {
    var a := before[Find(before, id)];
    assert a in before;
    if id == canonical {
      var b :| b in after && Same(a, b);
    }
  }

  // ---- Which row survives ----

  lemma AboveIsStrictWeak()
    ensures StrictWeak<Match>(Above)
  {
  }

  lemma RankedIsPermutation(nm: Naming, l: Lib, title: string, artist: string)
    ensures multiset(Ranked(nm, l, title, artist)) == multiset(Matches(nm, l, l.albums, title, artist))
    ensures Ordered(Ranked(nm, l, title, artist), Above)
    ensures forall m :: m in Ranked(nm, l, title, artist) <==> m in Matches(nm, l, l.albums, title, artist)
  {
    AboveIsStrictWeak();
    var ms := Matches(nm, l, l.albums, title, artist);
    SortIsStable(ms, Above);
    forall m ensures m in Sort(ms, Above) <==> m in ms {
      assert m in multiset(Sort(ms, Above)) <==> m in multiset(ms);
    }
  }

  lemma {:induction false} MatchesOnce(nm: Naming, l: Lib, albums: seq<AlbumRow>, title: string, artist: string,
                                       m: Match)
    requires DistinctIds(albums)
    ensures multiset(Matches(nm, l, albums, title, artist))[m] <= 1
  {
    if albums != [] {
      var rest := Matches(nm, l, albums[1..], title, artist);
      MatchesOnce(nm, l, albums[1..], title, artist, m);
      if m == MatchOf(l, albums[0]) {
        forall a | a in albums[1..] ensures a.id != albums[0].id {}
        assert m !in rest;
      }
    }
  }

  lemma TwiceCounts<T>(s: seq<T>, i: nat, j: nat)
    requires i < j < |s| && s[i] == s[j]
    ensures multiset(s)[s[i]] >= 2
  {
    assert s == s[..j] + s[j..];
    assert s[..j][i] in s[..j] && s[j..][0] in s[j..];
    assert multiset(s) == multiset(s[..j]) + multiset(s[j..]);
    assert s[i] in multiset(s[..j]) && s[i] in multiset(s[j..]);
  }

  lemma RankedIsARow(nm: Naming, l: Lib, title: string, artist: string, i: nat) returns (a: AlbumRow)
    requires i < |Ranked(nm, l, title, artist)|
    ensures a in l.albums && Ranked(nm, l, title, artist)[i] == MatchOf(l, a)
  {
    RankedIsPermutation(nm, l, title, artist);
    var m := Ranked(nm, l, title, artist)[i];
    assert m in Ranked(nm, l, title, artist);
    a :| a in l.albums && m == MatchOf(l, a);
  }

  lemma RankedOnce(nm: Naming, l: Lib, title: string, artist: string, i: nat, j: nat)
    requires DistinctIds(l.albums) && i < j < |Ranked(nm, l, title, artist)|
    ensures Ranked(nm, l, title, artist)[i] != Ranked(nm, l, title, artist)[j]
  {
    var ms := Ranked(nm, l, title, artist);
    RankedIsPermutation(nm, l, title, artist);
    MatchesOnce(nm, l, l.albums, title, artist, ms[i]);
    if ms[i] == ms[j] { TwiceCounts(ms, i, j); }
  }

  /** The ranked matches are distinct rows of the table. */
  lemma RankedAreSources(nm: Naming, l: Lib, title: string, artist: string)
    requires DistinctIds(l.albums) && |Ranked(nm, l, title, artist)| > 0
    ensures var ms := Ranked(nm, l, title, artist); Sources(l.albums, ms[0].id, ms[1..])
  {
    var ms := Ranked(nm, l, title, artist);
    forall i | 0 <= i < |ms| ensures Find(l.albums, ms[i].id) < |l.albums| {
      var a := RankedIsARow(nm, l, title, artist, i);
      FindSome(l.albums, a);
    }
    forall i, j | 0 <= i < j < |ms| ensures ms[i].id != ms[j].id {
      var a, b;
      a := RankedIsARow(nm, l, title, artist, i);
      b := RankedIsARow(nm, l, title, artist, j);
      FindSome(l.albums, a);
      FindSome(l.albums, b);
      RankedOnce(nm, l, title, artist, i, j);
    }
  }

  /** The canonical row has a release id if any match has one, and then, or
      otherwise, the most tracks. */
  lemma CanonicalIsBest(nm: Naming, l: Lib, title: string, artist: string, a: AlbumRow)
    requires a in l.albums && Matching(nm, l.artists, a, title, artist)
    ensures var ms := Ranked(nm, l, title, artist);
            && |ms| > 0
            && (a.release.Some? ==> ms[0].hasRelease)
            && (a.release.Some? == ms[0].hasRelease ==> |Members(l.tracks, a.id)| <= ms[0].tracks)
  {
    var ms := Ranked(nm, l, title, artist);
    RankedIsPermutation(nm, l, title, artist);
    assert MatchOf(l, a) in ms;
    var i :| 0 <= i < |ms| && ms[i] == MatchOf(l, a);
    if i > 0 { assert !Above(ms[i], ms[0]); }
  }

  lemma RankedIds(nm: Naming, l: Lib, title: string, artist: string, a: AlbumRow)
    requires DistinctIds(l.albums) && a in l.albums
    ensures a.id in IdsOf(Ranked(nm, l, title, artist)) <==> Matching(nm, l.artists, a, title, artist)
  {
    RankedIsPermutation(nm, l, title, artist);
    var ms := Ranked(nm, l, title, artist);
    if Matching(nm, l.artists, a, title, artist) {
      assert MatchOf(l, a) in ms;
    }
    if a.id in IdsOf(ms) {
      var m :| m in ms && m.id == a.id;
      var b :| b in l.albums && Matching(nm, l.artists, b, title, artist) && m == MatchOf(l, b);
      FindSome(l.albums, a);
      FindSome(l.albums, b);
    }
  }

  /** Of the rows for this title and artist the canonical one alone is left;
      every other row is as it was. */
  ghost predicate OneRowLeft(nm: Naming, l: Lib, after: Lib, title: string, artist: string, canonical: AlbumId) {
    && (exists b :: b in after.albums && b.id == canonical && Matching(nm, l.artists, b, title, artist))
    && (forall b :: b in after.albums && Matching(nm, l.artists, b, title, artist) ==> b.id == canonical)
    && (forall a :: a in l.albums && !Matching(nm, l.artists, a, title, artist) ==> a in after.albums)
    && (forall a :: a in after.albums && !Matching(nm, l.artists, a, title, artist) ==> a in l.albums)
  }

  ghost predicate IdsMatch(nm: Naming, l: Lib, title: string, artist: string, ids: set<AlbumId>) {
    forall a :: a in l.albums ==> (a.id in ids <==> Matching(nm, l.artists, a, title, artist))
  }

  lemma RankedIdsMatch(nm: Naming, l: Lib, title: string, artist: string)
    requires DistinctIds(l.albums)
    ensures IdsMatch(nm, l, title, artist, IdsOf(Ranked(nm, l, title, artist)))
  {
    forall a | a in l.albums
      ensures a.id in IdsOf(Ranked(nm, l, title, artist)) <==> Matching(nm, l.artists, a, title, artist)
    {
      RankedIds(nm, l, title, artist, a);
    }
  }

  /** The best match is a row of the table. */
  lemma BestIsARow(nm: Naming, l: Lib, title: string, artist: string)
    requires |Ranked(nm, l, title, artist)| > 0
    ensures exists a :: a in l.albums && Matching(nm, l.artists, a, title, artist)
                        && a.id == Ranked(nm, l, title, artist)[0].id
  {
    RankedIsPermutation(nm, l, title, artist);
    var best := Ranked(nm, l, title, artist)[0];
    assert best in Ranked(nm, l, title, artist);
  }

  lemma IdsOfCons(ms: seq<Match>)
    requires ms != []
    ensures IdsOf(ms) == {ms[0].id} + IdsOf(ms[1..])
  {
    assert ms == [ms[0]] + ms[1..];
  }

  /** Exactly one row is left for the normalised title and artist. */
  lemma HealLeavesOneRow(nm: Naming, l: Lib, title: string, artist: string, env: World)
    requires DistinctIds(l.albums) && title != "" && artist != "" && |Ranked(nm, l, title, artist)| > 0
    ensures var ms, after := Ranked(nm, l, title, artist), Healed(nm, l, title, artist, env).0;
            && DistinctIds(after.albums) && after.artists == l.artists
            && OneRowLeft(nm, l, after, title, artist, ms[0].id)
  {
    var ms, after := Ranked(nm, l, title, artist), Healed(nm, l, title, artist, env).0;
    var canonical, gone := ms[0].id, IdsOf(ms[1..]);
    RankedIdsMatch(nm, l, title, artist);
    BestIsARow(nm, l, title, artist);
    IdsOfCons(ms);
    if |ms| >= 2 {
      HealKeepsRows(nm, l, title, artist, env);
    } else {
      forall a | a in l.albums ensures Same(a, a) {}
    }
    assert Kept(l.albums, after.albums, canonical, gone);
    KeptLeavesOne(nm, l, after, title, artist, canonical, gone);
  }

  /** Two rows left whose artist is there and whose names agree with those asked
      for are one. */
  lemma HealUnites(nm: Naming, l: Lib, title: string, artist: string, env: World, a: AlbumRow, b: AlbumRow)
    requires DistinctIds(l.albums) && title != "" && artist != ""
    requires var left := Healed(nm, l, title, artist, env).0.albums; a in left && b in left
    requires a.artist in l.artists && nm.norm(l.artists[a.artist]) == nm.norm(artist)
    requires b.artist in l.artists && nm.norm(l.artists[b.artist]) == nm.norm(artist)
    requires nm.grouping(a.title) == nm.grouping(title) == nm.grouping(b.title)
    ensures a == b
  {
    if |Ranked(nm, l, title, artist)| == 0 {
      CanonicalIsBest(nm, l, title, artist, a);
    } else {
      HealLeavesOneRow(nm, l, title, artist, env);
      var left := Healed(nm, l, title, artist, env).0.albums;
      FindSome(left, a);
      FindSome(left, b);
    }
  }

  /** Every other row is neither lost nor new nor changed. */
  lemma HealLeavesRest(nm: Naming, l: Lib, title: string, artist: string, env: World, a: AlbumRow)
    requires DistinctIds(l.albums)
    requires !(a.artist in l.artists && nm.norm(l.artists[a.artist]) == nm.norm(artist)
               && nm.grouping(a.title) == nm.grouping(title))
    ensures a in l.albums <==> a in Healed(nm, l, title, artist, env).0.albums
  {
    if title != "" && artist != "" && |Ranked(nm, l, title, artist)| > 0 {
      HealLeavesOneRow(nm, l, title, artist, env);
    }
  }

  lemma TwoRows(nm: Naming, l: Lib, title: string, artist: string) returns (a: AlbumRow, b: AlbumRow)
    requires DistinctIds(l.albums) && |Ranked(nm, l, title, artist)| >= 2
    ensures a in l.albums && Matching(nm, l.artists, a, title, artist)
    ensures b in l.albums && Matching(nm, l.artists, b, title, artist) && a != b
  {
    var ms := Ranked(nm, l, title, artist);
    RankedIsPermutation(nm, l, title, artist);
    RankedAreSources(nm, l, title, artist);
    assert ms[0] in ms && ms[1] in ms && ms[1..][0] == ms[1];
    a :| a in l.albums && Matching(nm, l.artists, a, title, artist) && ms[0] == MatchOf(l, a);
    b :| b in l.albums && Matching(nm, l.artists, b, title, artist) && ms[1] == MatchOf(l, b);
  }

  /** Without a title, an artist, or two rows for them nothing happens. */
  lemma HealIdle(nm: Naming, l: Lib, title: string, artist: string, env: World)
    requires DistinctIds(l.albums)
    requires title == "" || artist == "" ||
             forall a, b | a in l.albums && b in l.albums
                           && a.artist in l.artists && nm.norm(l.artists[a.artist]) == nm.norm(artist)
                           && b.artist in l.artists && nm.norm(l.artists[b.artist]) == nm.norm(artist)
                           && nm.grouping(a.title) == nm.grouping(title) == nm.grouping(b.title) :: a == b
    ensures Healed(nm, l, title, artist, env) == (l, 0)
  {
    if title != "" && artist != "" && |Ranked(nm, l, title, artist)| >= 2 {
      var a, b := TwoRows(nm, l, title, artist);
    }
  }

  /** The merges that moved, found in place or ran into some file. */
  ghost function Busy(l: Lib, rest: seq<Match>, merge: (Lib, AlbumId) -> Outcome): set<nat> {
    set k: nat | k < |rest|
      && var o := merge(MergedAll(l, rest[..k], merge).0, rest[k].id); o.moved + o.already + o.collisions > 0
  }

  lemma BusySnoc(l: Lib, rest: seq<Match>, merge: (Lib, AlbumId) -> Outcome)
    requires rest != []
    ensures var n := |rest| - 1;
            var o := merge(MergedAll(l, rest[..n], merge).0, rest[n].id);
            Busy(l, rest, merge)
            == Busy(l, rest[..n], merge) + if o.moved + o.already + o.collisions > 0 then {n} else {}
  {
    var n := |rest| - 1;
    forall k: nat | k < n ensures rest[..n][..k] == rest[..k] && rest[..n][k] == rest[k] {}
  }

  /** The number returned is how many these are. */
  lemma {:induction false} MergedCounts(l: Lib, rest: seq<Match>, merge: (Lib, AlbumId) -> Outcome)
    ensures MergedAll(l, rest, merge).1 == |Busy(l, rest, merge)|
  {
    if rest != [] {
      MergedCounts(l, rest[..|rest| - 1], merge);
      BusySnoc(l, rest, merge);
    }
  }

  lemma HealKeepsRows(nm: Naming, l: Lib, title: string, artist: string, env: World)
    requires DistinctIds(l.albums) && title != "" && artist != "" && |Ranked(nm, l, title, artist)| >= 2
    ensures var ms, after := Ranked(nm, l, title, artist), Healed(nm, l, title, artist, env).0;
            after.artists == l.artists && Kept(l.albums, after.albums, ms[0].id, IdsOf(ms[1..]))
  {
    var ms := Ranked(nm, l, title, artist);
    RankedAreSources(nm, l, title, artist);
    MergingRows(ms[0].id, env);
    MergesKeepRows(l, ms[0].id, ms[1..], Merging(ms[0].id, env));
  }

  lemma SameMatching(nm: Naming, artists: map<string, string>, a: AlbumRow, b: AlbumRow, title: string, artist: string)
    requires Same(a, b)
    ensures Matching(nm, artists, a, title, artist) == Matching(nm, artists, b, title, artist)
  {
  }

  /** A row that is left comes from one for the same title and artist. */
  lemma LeftRow(nm: Naming, l: Lib, after: Lib, title: string, artist: string, canonical: AlbumId, gone: set<AlbumId>,
                b: AlbumRow)
    requires Kept(l.albums, after.albums, canonical, gone) && IdsMatch(nm, l, title, artist, {canonical} + gone)
    requires b in after.albums
    ensures Matching(nm, l.artists, b, title, artist) <==> b.id == canonical
    ensures b.id != canonical ==> b in l.albums
  {
    var a :| a in l.albums && Same(a, b) && (b.id != canonical ==> a == b);
    SameMatching(nm, l.artists, a, b, title, artist);
  }

  lemma KeptLeavesOne(nm: Naming, l: Lib, after: Lib, title: string, artist: string, canonical: AlbumId,
                      gone: set<AlbumId>)
    requires Kept(l.albums, after.albums, canonical, gone)
    requires IdsMatch(nm, l, title, artist, {canonical} + gone)
    requires exists a :: a in l.albums && Matching(nm, l.artists, a, title, artist) && a.id == canonical
    ensures OneRowLeft(nm, l, after, title, artist, canonical)
  {
    var b := CanonicalLeft(l, after, canonical, gone);
    forall b | b in after.albums
      ensures Matching(nm, l.artists, b, title, artist) <==> b.id == canonical
      ensures b.id != canonical ==> b in l.albums
    {
      LeftRow(nm, l, after, title, artist, canonical, gone, b);
    }
    assert b in after.albums && b.id == canonical;
    forall a | a in l.albums && !Matching(nm, l.artists, a, title, artist) ensures a in after.albums {
      assert a.id !in {canonical} + gone;
    }
  }

  lemma CanonicalLeft(l: Lib, after: Lib, canonical: AlbumId, gone: set<AlbumId>) returns (b: AlbumRow)
    requires Kept(l.albums, after.albums, canonical, gone) && exists a :: a in l.albums && a.id == canonical
    ensures b in after.albums && b.id == canonical
  {
    var best :| best in l.albums && best.id == canonical;
    b :| b in after.albums && Same(best, b);
  }

  // ---- Whose tracks they become ----

  /** Per merge, the rows whose move failed. */
  function FailedSet(canonical: AlbumId, env: World): (Lib, AlbumId) -> set<nat> {
    (l: Lib, source: AlbumId) => set i | 0 <= i < |l.tracks| && FailedIn(l, canonical, source, env, i)
  }

  function Failures(l: Lib, rest: seq<Match>, merge: (Lib, AlbumId) -> Outcome,
                    failed: (Lib, AlbumId) -> set<nat>): set<nat>
  {
    if rest == [] then {}
    else
      var front := rest[..|rest| - 1];
      Failures(l, front, merge, failed) + failed(MergedAll(l, front, merge).0, rest[|rest| - 1].id)
  }

  ghost predicate TracksMerge(canonical: AlbumId, merge: (Lib, AlbumId) -> Outcome,
                              failed: (Lib, AlbumId) -> set<nat>) {
    forall l: Lib, id: AlbumId :: Mergeable(l, canonical, id) ==>
      Reassigned(l.tracks, merge(l, id).lib.tracks, canonical, {id}, failed(l, id))
  }

  /** Rows of the given albums now belong to the canonical one, but for the
      failed ones; no other row changed its album. */
  ghost predicate Reassigned(before: seq<Member>, after: seq<Member>, canonical: AlbumId, gone: set<AlbumId>,
                             failed: set<nat>)
  {
    && |after| == |before|
    && (forall i :: i in failed ==> i < |before| && before[i].album.Some? && before[i].album.value in gone)
    && forall i :: 0 <= i < |before| ==>
         after[i].album == if before[i].album.Some? && before[i].album.value in gone && i !in failed
                           then Some(canonical) else before[i].album
  }

  lemma MergingTracks(canonical: AlbumId, env: World)
    ensures TracksMerge(canonical, Merging(canonical, env), FailedSet(canonical, env))
  {
    forall l: Lib, id: AlbumId | Mergeable(l, canonical, id)
      ensures Reassigned(l.tracks, Merging(canonical, env)(l, id).lib.tracks, canonical, {id},
                         FailedSet(canonical, env)(l, id))
    {
      MergeReassigns(l, canonical, id, env);
    }
  }

  lemma MergeReassigns(l: Lib, canonical: AlbumId, source: AlbumId, env: World)
    requires Mergeable(l, canonical, source)
    ensures Reassigned(l.tracks, MergedInto(l, canonical, source, env).lib.tracks, canonical, {source},
                       set i | 0 <= i < |l.tracks| && FailedIn(l, canonical, source, env, i))
  {
    forall i | 0 <= i < |l.tracks|
      ensures MergedInto(l, canonical, source, env).lib.tracks[i].album
              == if l.tracks[i].album == Some(source) && !FailedIn(l, canonical, source, env, i)
                 then Some(canonical) else l.tracks[i].album
    {
      DanglingIffFailed(l, canonical, source, env, i);
    }
  }

  lemma ReassignedThen(a: seq<Member>, b: seq<Member>, c: seq<Member>, canonical: AlbumId,
                       g: set<AlbumId>, h: set<AlbumId>, f: set<nat>, k: set<nat>)
    requires Reassigned(a, b, canonical, g, f) && Reassigned(b, c, canonical, h, k)
    requires g !! h && canonical !in g + h
    ensures Reassigned(a, c, canonical, g + h, f + k)
  {
  }

  lemma {:induction false} MergesReassign(l: Lib, canonical: AlbumId, rest: seq<Match>,
                                          merge: (Lib, AlbumId) -> Outcome,
                                          failed: (Lib, AlbumId) -> set<nat>)
    requires RowsMerge(canonical, merge) && TracksMerge(canonical, merge, failed) && Sources(l.albums, canonical, rest)
    ensures Reassigned(l.tracks, MergedAll(l, rest, merge).0.tracks, canonical, IdsOf(rest),
                       Failures(l, rest, merge, failed))
  {
    if rest != [] {
      var front, last := rest[..|rest| - 1], rest[|rest| - 1].id;
      LastIsFree(l.albums, canonical, rest);
      MergesReassign(l, canonical, front, merge, failed);
      MergesKeepRows(l, canonical, front, merge);
      var before := MergedAll(l, front, merge).0;
      StillMergeable(l, before, canonical, IdsOf(front), last);
      ReassignedThen(l.tracks, before.tracks, merge(before, last).lib.tracks, canonical, IdsOf(front), {last},
                     Failures(l, front, merge, failed), failed(before, last));
      IdsOfSnoc(rest);
    }
  }

  /** The surviving row owns every track of all matching rows, except those
      whose file could not be moved; these refer to a row that is gone. So no
      track dangles exactly when no attempted move failed. */
  lemma HealReassigns(nm: Naming, l: Lib, title: string, artist: string, env: World)
    requires DistinctIds(l.albums) && title != "" && artist != "" && |Ranked(nm, l, title, artist)| >= 2
    ensures var ms, after := Ranked(nm, l, title, artist), Healed(nm, l, title, artist, env).0;
            var failures := Failures(l, ms[1..], Merging(ms[0].id, env), FailedSet(ms[0].id, env));
            && Reassigned(l.tracks, after.tracks, ms[0].id, IdsOf(ms[1..]), failures)
            && (failures == {} <==> NoneRefersTo(after.tracks, IdsOf(ms[1..])))
            && failures <= env.blocked
  {
    var ms := Ranked(nm, l, title, artist);
    RankedAreSources(nm, l, title, artist);
    MergeSourcesReassigns(l, ms[0].id, ms[1..], env);
  }

  lemma MergeSourcesReassigns(l: Lib, canonical: AlbumId, rest: seq<Match>, env: World)
    requires Sources(l.albums, canonical, rest)
    ensures var merge, failed := Merging(canonical, env), FailedSet(canonical, env);
            var after, failures := MergedAll(l, rest, merge).0, Failures(l, rest, merge, failed);
            && Reassigned(l.tracks, after.tracks, canonical, IdsOf(rest), failures)
            && (failures == {} <==> NoneRefersTo(after.tracks, IdsOf(rest)))
            && failures <= env.blocked
  {
    var merge, failed := Merging(canonical, env), FailedSet(canonical, env);
    MergingRows(canonical, env);
    MergingTracks(canonical, env);
    MergesReassign(l, canonical, rest, merge, failed);
    FailedAreBlocked(canonical, env);
    FailuresAreBlocked(l, rest, merge, failed, env.blocked);
    DanglingAreFailures(l.tracks, MergedAll(l, rest, merge).0.tracks, canonical, IdsOf(rest),
                        Failures(l, rest, merge, failed));
  }

  lemma FailedAreBlocked(canonical: AlbumId, env: World)
    ensures forall k: Lib, id: AlbumId :: FailedSet(canonical, env)(k, id) <= env.blocked
  {
    forall k: Lib, id: AlbumId ensures FailedSet(canonical, env)(k, id) <= env.blocked {
      forall i | i in FailedSet(canonical, env)(k, id) ensures i in env.blocked {
        assert FailedIn(k, canonical, id, env, i);
      }
    }
  }

  ghost predicate NoneRefersTo(tracks: seq<Member>, gone: set<AlbumId>) {
    forall i :: 0 <= i < |tracks| && tracks[i].album.Some? ==> tracks[i].album.value !in gone
  }

  lemma DanglingAreFailures(before: seq<Member>, after: seq<Member>, canonical: AlbumId, gone: set<AlbumId>,
                            failed: set<nat>)
    requires Reassigned(before, after, canonical, gone, failed) && canonical !in gone
    ensures failed == {} <==> NoneRefersTo(after, gone)
  {
    if failed != {} {
      var i :| i in failed;
      assert after[i].album == before[i].album;
    }
  }

  lemma {:induction false} FailuresAreBlocked(l: Lib, rest: seq<Match>, merge: (Lib, AlbumId) -> Outcome,
                                              failed: (Lib, AlbumId) -> set<nat>, blocked: set<nat>)
    requires forall k: Lib, id: AlbumId :: failed(k, id) <= blocked
    ensures Failures(l, rest, merge, failed) <= blocked
  {
    if rest != [] { FailuresAreBlocked(l, rest[..|rest| - 1], merge, failed, blocked); }
  }

  // ---- Tags ----

  /** The file of row i carries the album's title and artist. */
  ghost predicate Carries(l: Lib, i: nat, title: string, artist: string) {
    i < |l.tracks| && l.tracks[i].file.Some? && l.tracks[i].file.value in l.disk ==>
      var a := l.disk[l.tracks[i].file.value];
      a.album == Some(title) && a.albumArtist == Some(artist)
  }

  ghost predicate TagsMerge(canonical: AlbumId, merge: (Lib, AlbumId) -> Outcome) {
    forall l: Lib, id: AlbumId, i: nat :: TagsStep(l, merge(l, id).lib, canonical, id, i)
  }

  /** A merged row's file carries the canonical tags; another row's file does
      if it did before. */
  ghost predicate TagsStep(l: Lib, after: Lib, canonical: AlbumId, source: AlbumId, i: nat)
  {
    Mergeable(l, canonical, source) && i < |l.tracks| ==>
      var row := l.albums[Find(l.albums, canonical)];
      l.tracks[i].album == Some(source) || Carries(l, i, row.title, ArtistName(l, row)) ==>
        Carries(after, i, row.title, ArtistName(l, row))
  }

  lemma MergingTags(canonical: AlbumId, env: World)
    ensures TagsMerge(canonical, Merging(canonical, env))
  {
    forall l: Lib, id: AlbumId, i: nat
      ensures TagsStep(l, Merging(canonical, env)(l, id).lib, canonical, id, i)
    {
      if Mergeable(l, canonical, id) && i < |l.tracks| { MergeCarries(l, canonical, id, env, i); }
    }
  }

  lemma MergeCarries(l: Lib, canonical: AlbumId, source: AlbumId, env: World, i: nat)
    requires Mergeable(l, canonical, source) && i < |l.tracks|
    ensures TagsStep(l, MergedInto(l, canonical, source, env).lib, canonical, source, i)
  {
    var after := MergedInto(l, canonical, source, env).lib;
    if l.tracks[i].album == Some(source) {
      MergeAlignsTags(l, canonical, source, env, i);
    } else {
      MergeLeavesOthers(l, canonical, source, env, i);
      forall j | 0 <= j < |l.tracks| && l.tracks[j].album == Some(source)
        ensures var row := l.albums[Find(l.albums, canonical)]; Carries(after, j, row.title, ArtistName(l, row))
      {
        MergeAlignsTags(l, canonical, source, env, j);
      }
    }
  }

  /** After healing, whatever went wrong on the way, the file of every row taken
      over that still has one carries the surviving album's title and artist. */
  lemma {:induction false} MergesAlignTags(l: Lib, canonical: AlbumId, rest: seq<Match>,
                                           merge: (Lib, AlbumId) -> Outcome,
                                           failed: (Lib, AlbumId) -> set<nat>, i: nat)
    requires RowsMerge(canonical, merge) && TagsMerge(canonical, merge) && TracksMerge(canonical, merge, failed)
    requires Sources(l.albums, canonical, rest) && i < |l.tracks|
    requires l.tracks[i].album.Some? && l.tracks[i].album.value in IdsOf(rest)
    ensures var row := l.albums[Find(l.albums, canonical)];
            Carries(MergedAll(l, rest, merge).0, i, row.title, ArtistName(l, row))
  {
    var front, last := rest[..|rest| - 1], rest[|rest| - 1].id;
    var before := MergedAll(l, front, merge).0;
    LastIsFree(l.albums, canonical, rest);
    IdsOfSnoc(rest);
    MergesKeepRows(l, canonical, front, merge);
    MergesReassign(l, canonical, front, merge, failed);
    StillMergeable(l, before, canonical, IdsOf(front), last);
    SameCanonical(l, before, canonical, IdsOf(front));
    assert TagsStep(before, merge(before, last).lib, canonical, last, i);
    if l.tracks[i].album.value in IdsOf(front) {
      MergesAlignTags(l, canonical, front, merge, failed, i);
    }
  }

  lemma SameCanonical(l: Lib, after: Lib, canonical: AlbumId, gone: set<AlbumId>)
    requires Kept(l.albums, after.albums, canonical, gone) && after.artists == l.artists && DistinctIds(l.albums)
    requires Find(l.albums, canonical) < |l.albums| && Find(after.albums, canonical) < |after.albums|
    ensures var a, b := l.albums[Find(l.albums, canonical)], after.albums[Find(after.albums, canonical)];
            Same(a, b) && ArtistName(l, a) == ArtistName(after, b)
  {
    var b := after.albums[Find(after.albums, canonical)];
    var a := CameFrom(l.albums, after.albums, canonical, gone, b);
    FindSome(l.albums, a);
  }

  lemma CameFrom(before: seq<AlbumRow>, after: seq<AlbumRow>, canonical: AlbumId, gone: set<AlbumId>, b: AlbumRow)
    returns (a: AlbumRow)
    requires Kept(before, after, canonical, gone) && b in after
    ensures a in before && Same(a, b)
  {
    a :| a in before && Same(a, b);
  }

  lemma HealAlignsTags(nm: Naming, l: Lib, title: string, artist: string, env: World, i: nat)
    requires DistinctIds(l.albums) && title != "" && artist != "" && |Ranked(nm, l, title, artist)| >= 2
    requires i < |l.tracks|
    requires l.tracks[i].album.Some? && l.tracks[i].album.value in IdsOf(Ranked(nm, l, title, artist)[1..])
    ensures var ms := Ranked(nm, l, title, artist);
            Find(l.albums, ms[0].id) < |l.albums| &&
            var row := l.albums[Find(l.albums, ms[0].id)];
            Carries(Healed(nm, l, title, artist, env).0, i, row.title, ArtistName(l, row))
  {
    var ms := Ranked(nm, l, title, artist);
    RankedAreSources(nm, l, title, artist);
    MergingRows(ms[0].id, env);
    MergingTracks(ms[0].id, env);
    MergingTags(ms[0].id, env);
    MergesAlignTags(l, ms[0].id, ms[1..], Merging(ms[0].id, env), FailedSet(ms[0].id, env), i);
  }

  // ---- The files ----

  /** The merge abandons no row of the library. */
  ghost function Sparing(canonical: AlbumId, env: World): (Lib, AlbumId) -> bool {
    (l, source) => AbandonsNone(l, canonical, source, env)
  }

  /** An accurate index stays accurate exactly when no row is abandoned, and is
      then about the same audio. */
  ghost predicate StaysAccurate(before: Lib, after: Lib, spared: bool) {
    Accurate(before.tracks, before.disk) ==>
      && (Accurate(after.tracks, after.disk) <==> spared)
      && (spared ==> SameAudio(before.tracks, before.disk, after.tracks, after.disk))
  }

  ghost predicate KeepsAccurate(merge: (Lib, AlbumId) -> Outcome, spares: (Lib, AlbumId) -> bool) {
    forall l: Lib, id: AlbumId :: StaysAccurate(l, merge(l, id).lib, spares(l, id))
  }

  lemma MergingKeepsAccurate(canonical: AlbumId, env: World)
    ensures KeepsAccurate(Merging(canonical, env), Sparing(canonical, env))
  {
    forall l: Lib, id: AlbumId
      ensures StaysAccurate(l, Merging(canonical, env)(l, id).lib, Sparing(canonical, env)(l, id))
    {
      MergeStaysAccurate(l, canonical, id, env);
    }
  }

  lemma MergeStaysAccurate(l: Lib, canonical: AlbumId, source: AlbumId, env: World)
    ensures StaysAccurate(l, MergedInto(l, canonical, source, env).lib, AbandonsNone(l, canonical, source, env))
  {
    if Accurate(l.tracks, l.disk) {
      MergeKeepsAccurate(l, canonical, source, env);
      if AbandonsNone(l, canonical, source, env) { OwnIsSame(l, MergedInto(l, canonical, source, env).lib); }
    }
  }

  lemma OwnIsSame(before: Lib, after: Lib)
    requires Accurate(before.tracks, before.disk) && Accurate(after.tracks, after.disk)
    requires |after.tracks| == |before.tracks|
    requires forall i :: 0 <= i < |before.tracks| ==> OwnAudio(before, after, i)
    ensures SameAudio(before.tracks, before.disk, after.tracks, after.disk)
  {
    forall i | 0 <= i < |before.tracks|
      ensures after.tracks[i].file.Some? == before.tracks[i].file.Some?
      ensures after.tracks[i].file.Some? ==>
                after.disk[after.tracks[i].file.value].id == before.disk[before.tracks[i].file.value].id
    {
      assert OwnAudio(before, after, i);
    }
  }

  lemma {:induction false} MergesLoseNothing(l: Lib, rest: seq<Match>, merge: (Lib, AlbumId) -> Outcome)
    requires forall k: Lib, id: AlbumId :: NothingLost(k, merge(k, id).lib)
    ensures NothingLost(l, MergedAll(l, rest, merge).0)
  {
    if rest != [] {
      var front := rest[..|rest| - 1];
      MergesLoseNothing(l, front, merge);
      var before := MergedAll(l, front, merge).0;
      assert NothingLost(before, merge(before, rest[|rest| - 1].id).lib);
    }
  }

  lemma MergingLosesNothing(canonical: AlbumId, env: World)
    ensures forall l: Lib, id: AlbumId :: NothingLost(l, Merging(canonical, env)(l, id).lib)
  {
    forall l: Lib, id: AlbumId ensures NothingLost(l, Merging(canonical, env)(l, id).lib) {
      MergeLosesNothing(l, canonical, id, env);
    }
  }

  /** No merge abandons a row, each in the state that the earlier ones left. */
  ghost predicate NoneAbandoned(l: Lib, rest: seq<Match>, merge: (Lib, AlbumId) -> Outcome,
                                spares: (Lib, AlbumId) -> bool)
    decreases |rest|
  {
    rest == []
    || var front := rest[..|rest| - 1];
       NoneAbandoned(l, front, merge, spares) && spares(MergedAll(l, front, merge).0, rest[|rest| - 1].id)
  }

  /** The index is accurate at the start and after every merge. */
  ghost predicate AccurateThroughout(l: Lib, rest: seq<Match>, merge: (Lib, AlbumId) -> Outcome)
    decreases |rest|
  {
    var now := MergedAll(l, rest, merge).0;
    Accurate(now.tracks, now.disk) && (rest == [] || AccurateThroughout(l, rest[..|rest| - 1], merge))
  }

  /** Accurate all along exactly when no row is abandoned; then all is well. */
  ghost predicate AccurateIff(l: Lib, rest: seq<Match>, merge: (Lib, AlbumId) -> Outcome,
                              spares: (Lib, AlbumId) -> bool)
    requires Accurate(l.tracks, l.disk)
  {
    var after := MergedAll(l, rest, merge).0;
    && (AccurateThroughout(l, rest, merge) <==> NoneAbandoned(l, rest, merge, spares))
    && (NoneAbandoned(l, rest, merge, spares) ==>
          Accurate(after.tracks, after.disk) && SameAudio(l.tracks, l.disk, after.tracks, after.disk))
  }

  lemma {:induction false} MergesKeepAccurate(l: Lib, rest: seq<Match>, merge: (Lib, AlbumId) -> Outcome,
                                              spares: (Lib, AlbumId) -> bool)
    requires KeepsAccurate(merge, spares) && Accurate(l.tracks, l.disk)
    ensures AccurateIff(l, rest, merge, spares)
  {
    if rest != [] {
      var n := |rest| - 1;
      var before, after := MergedAll(l, rest[..n], merge).0, MergedAll(l, rest, merge).0;
      MergesKeepAccurate(l, rest[..n], merge, spares);
      assert StaysAccurate(before, merge(before, rest[n].id).lib, spares(before, rest[n].id));
      if NoneAbandoned(l, rest, merge, spares) {
        AudioThen(l.tracks, l.disk, before.tracks, before.disk, after.tracks, after.disk);
      }
    }
  }

  /** Healing loses no file but to the trash. An accurate index is accurate all
      along exactly when no merge abandons a row, and then every row names its
      own audio at the end, whatever else failed. */
  lemma HealKeepsAudio(nm: Naming, l: Lib, title: string, artist: string, env: World)
    ensures NothingLost(l, Healed(nm, l, title, artist, env).0)
    ensures title != "" && artist != "" && |Ranked(nm, l, title, artist)| >= 2 && Accurate(l.tracks, l.disk) ==>
              var ms := Ranked(nm, l, title, artist);
              AccurateIff(l, ms[1..], Merging(ms[0].id, env), Sparing(ms[0].id, env))
  {
    var ms := Ranked(nm, l, title, artist);
    if |ms| >= 2 {
      MergingLosesNothing(ms[0].id, env);
      MergesLoseNothing(l, ms[1..], Merging(ms[0].id, env));
      if Accurate(l.tracks, l.disk) {
        MergingKeepsAccurate(ms[0].id, env);
        MergesKeepAccurate(l, ms[1..], Merging(ms[0].id, env), Sparing(ms[0].id, env));
      }
    }
  }

  // ---- Tidy libraries ----

  ghost predicate TidyMerge(canonical: AlbumId, env: World, merge: (Lib, AlbumId) -> Outcome,
                            spares: (Lib, AlbumId) -> bool) {
    forall l: Lib, id: AlbumId :: Mergeable(l, canonical, id) && TidyFor(l, canonical, env) ==>
      && Tidy(merge(l, id).lib.tracks, l.albums[Find(l.albums, canonical)], env)
      && (Accurate(l.tracks, l.disk) ==> spares(l, id))
  }

  ghost predicate TidyFor(l: Lib, canonical: AlbumId, env: World) {
    Find(l.albums, canonical) < |l.albums| && Tidy(l.tracks, l.albums[Find(l.albums, canonical)], env)
  }

  lemma MergingTidily(canonical: AlbumId, env: World)
    ensures TidyMerge(canonical, env, Merging(canonical, env), Sparing(canonical, env))
  {
    forall l: Lib, id: AlbumId | Mergeable(l, canonical, id) && TidyFor(l, canonical, env)
      ensures Tidy(Merging(canonical, env)(l, id).lib.tracks, l.albums[Find(l.albums, canonical)], env)
      ensures Accurate(l.tracks, l.disk) ==> Sparing(canonical, env)(l, id)
    {
      MergeKeepsTidy(l, canonical, id, env);
      if Accurate(l.tracks, l.disk) { TidyAbandonsNone(l, canonical, id, env); }
    }
  }

  lemma TidyForSame(tracks: seq<Member>, a: AlbumRow, b: AlbumRow, env: World)
    requires Tidy(tracks, a, env) && SameAlbum(a, b)
    ensures Tidy(tracks, b, env)
  {
    forall d | Used(tracks, b, env, d) ensures Used(tracks, a, env, d) {}
  }

  /** One more merge of a library that is still accurate and tidy. */
  lemma MergeSparesTidy(l: Lib, row: AlbumRow, canonical: AlbumId, source: AlbumId, env: World,
                        merge: (Lib, AlbumId) -> Outcome, spares: (Lib, AlbumId) -> bool)
    requires TidyMerge(canonical, env, merge, spares) && Mergeable(l, canonical, source)
    requires SameAlbum(row, l.albums[Find(l.albums, canonical)])
    requires Tidy(l.tracks, row, env) && Accurate(l.tracks, l.disk)
    ensures spares(l, source) && Tidy(merge(l, source).lib.tracks, row, env)
  {
    var now := l.albums[Find(l.albums, canonical)];
    TidyForSame(l.tracks, row, now, env);
    assert TidyFor(l, canonical, env);
    TidyForSame(merge(l, source).lib.tracks, now, row, env);
  }

  lemma {:induction false} MergesSpareTidy(l: Lib, canonical: AlbumId, rest: seq<Match>, env: World,
                                           merge: (Lib, AlbumId) -> Outcome, spares: (Lib, AlbumId) -> bool)
    requires RowsMerge(canonical, merge) && TidyMerge(canonical, env, merge, spares) && KeepsAccurate(merge, spares)
    requires Sources(l.albums, canonical, rest) && TidyFor(l, canonical, env) && Accurate(l.tracks, l.disk)
    ensures NoneAbandoned(l, rest, merge, spares)
    ensures Tidy(MergedAll(l, rest, merge).0.tracks, l.albums[Find(l.albums, canonical)], env)
    decreases |rest|
  {
    if rest != [] {
      var n := |rest| - 1;
      var before := MergedAll(l, rest[..n], merge).0;
      LastIsFree(l.albums, canonical, rest);
      MergesSpareTidy(l, canonical, rest[..n], env, merge, spares);
      MergesKeepAccurate(l, rest[..n], merge, spares);
      BeforeLast(l, canonical, rest, merge);
      MergeSparesTidy(before, l.albums[Find(l.albums, canonical)], canonical, rest[n].id, env, merge, spares);
    }
  }

  /** The last row can still be merged, into what is still the same album. */
  lemma BeforeLast(l: Lib, canonical: AlbumId, rest: seq<Match>, merge: (Lib, AlbumId) -> Outcome)
    requires RowsMerge(canonical, merge) && Sources(l.albums, canonical, rest) && rest != []
    ensures var n := |rest| - 1;
            var before := MergedAll(l, rest[..n], merge).0;
            && Mergeable(before, canonical, rest[n].id)
            && SameAlbum(l.albums[Find(l.albums, canonical)], before.albums[Find(before.albums, canonical)])
  {
    var front, last := rest[..|rest| - 1], rest[|rest| - 1].id;
    var before := MergedAll(l, front, merge).0;
    LastIsFree(l.albums, canonical, rest);
    MergesKeepRows(l, canonical, front, merge);
    StillMergeable(l, before, canonical, IdsOf(front), last);
    SameCanonical(l, before, canonical, IdsOf(front));
  }

  /** So an accurate index stays accurate if at the outset every file's name is
      one the trash step knows and no folder in use lies below another. */
  lemma TidyHealKeepsAccurate(nm: Naming, l: Lib, title: string, artist: string, env: World)
    requires DistinctIds(l.albums) && title != "" && artist != "" && |Ranked(nm, l, title, artist)| >= 2
    requires TidyFor(l, Ranked(nm, l, title, artist)[0].id, env) && Accurate(l.tracks, l.disk)
    ensures var after := Healed(nm, l, title, artist, env).0;
            Accurate(after.tracks, after.disk) && SameAudio(l.tracks, l.disk, after.tracks, after.disk)
  {
    var ms := Ranked(nm, l, title, artist);
    RankedAreSources(nm, l, title, artist);
    MergingRows(ms[0].id, env);
    MergingTidily(ms[0].id, env);
    MergingKeepsAccurate(ms[0].id, env);
    MergesSpareTidy(l, ms[0].id, ms[1..], env, Merging(ms[0].id, env), Sparing(ms[0].id, env));
    HealKeepsAudio(nm, l, title, artist, env);
  }
}
