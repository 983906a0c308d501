/** Merging one album row into another: its files move into the canonical
    album's folder, its tracks are reassigned, tags are aligned, its row goes. */
module AlbumMerge {
  import opened Prelude
  import opened LibraryIndex

  /** Folders are paths, so that one can lie below another. */
  datatype Place = Place(dir: Path, name: string)

  /** A file: `id` is its content, the rest its grouping tags. */
  datatype Audio = Audio(id: nat, album: Option<string>, albumArtist: Option<string>,
                         year: Option<int>, release: Option<string>)

  type Disk = map<Place, Audio>

  /** A track row's album, together with the path of its file row. */
  datatype Member = Member(album: Option<AlbumId>, file: Option<Place>)

  /** Tracks stand in load order; a track is known by its position. `trash` is
      what was handed to the trash, merge by merge. */
  datatype Lib = Lib(albums: seq<AlbumRow>, artists: map<string, string>, tracks: seq<Member>, disk: Disk,
                     trash: seq<Disk>)

  /** What a merge meets outside the library: the folder the layout gives an
      album without files, the rows whose file cannot be moved, the names the
      trash step takes for audio, and the files it cannot take away. */
  datatype World = World(home: AlbumRow -> Path, blocked: set<nat>, audio: string -> bool, stuck: set<Place>)

  // ---- One track ----

  datatype Turn = NoFile | AlreadyThere | Missing | Collision | Moved | Failed

  /** `blocked` says that placing this file would raise. */
  function TurnOf(t: Member, disk: Disk, dir: Path, blocked: bool): Turn {
    if t.file.None? then NoFile
    else
      var src, dst := t.file.value, Place(dir, t.file.value.name);
      if src == dst then AlreadyThere
      else if src !in disk then Missing
      else if dst in disk then Collision
      else if blocked then Failed
      else Moved
  }

  function TrackAfter(t: Member, canonical: AlbumId, dir: Path, turn: Turn): Member {
    match turn
    case Failed => t
    case NoFile => t.(album := Some(canonical))
    case AlreadyThere => t.(album := Some(canonical))
    case Collision => t.(album := Some(canonical))
    case Missing => if t.file.None? then t else Member(Some(canonical), Some(Place(dir, t.file.value.name)))
    case Moved => if t.file.None? then t else Member(Some(canonical), Some(Place(dir, t.file.value.name)))
  }

  function DiskAfter(t: Member, disk: Disk, dir: Path, turn: Turn): Disk {
    if turn.Moved? && t.file.Some? && t.file.value in disk then
      (disk - {t.file.value})[Place(dir, t.file.value.name) := disk[t.file.value]]
    else disk
  }

  // ---- All tracks of the source album ----

  datatype Stage = Stage(tracks: seq<Member>, disk: Disk, moved: nat, already: nat, collisions: nat)

  /** What the moving loop has done once the first n rows are behind it. */
  function Staged(tracks: seq<Member>, disk: Disk, canonical: AlbumId, source: AlbumId, dir: Path,
                  blocked: set<nat>, n: nat): (s: Stage)
    requires n <= |tracks|
    ensures |s.tracks| == |tracks| && forall i :: n <= i < |tracks| ==> s.tracks[i] == tracks[i]
  {
    if n == 0 then Stage(tracks, disk, 0, 0, 0)
    else
      var s := Staged(tracks, disk, canonical, source, dir, blocked, n - 1);
      var t := tracks[n - 1];
      if t.album != Some(source) then s
      else
        var turn := TurnOf(t, s.disk, dir, n - 1 in blocked);
        Stage(s.tracks[n - 1 := TrackAfter(t, canonical, dir, turn)], DiskAfter(t, s.disk, dir, turn),
              s.moved + (if turn.Moved? then 1 else 0),
              s.already + (if turn.AlreadyThere? then 1 else 0),
              s.collisions + (if turn.Collision? then 1 else 0))
  }

  /** How row i of the source album fared. */
  function TurnAt(tracks: seq<Member>, disk: Disk, canonical: AlbumId, source: AlbumId, dir: Path,
                  blocked: set<nat>, i: nat): Turn
    requires i < |tracks|
  {
    TurnOf(tracks[i], Staged(tracks, disk, canonical, source, dir, blocked, i).disk, dir, i in blocked)
  }

  /** Every row's path is on disk and no two rows share one. */
  ghost predicate Accurate(tracks: seq<Member>, disk: Disk) {
    && (forall i :: 0 <= i < |tracks| && tracks[i].file.Some? ==> tracks[i].file.value in disk)
    && (forall i, j :: 0 <= i < j < |tracks| && tracks[i].file.Some? ==> tracks[i].file != tracks[j].file)
  }

  ghost predicate SameAudio(tracks0: seq<Member>, disk0: Disk, tracks: seq<Member>, disk: Disk)
    requires Accurate(tracks0, disk0) && Accurate(tracks, disk)
  {
    && |tracks| == |tracks0|
    && forall i :: 0 <= i < |tracks| ==>
         && tracks[i].file.Some? == tracks0[i].file.Some?
         && (tracks[i].file.Some? ==> disk[tracks[i].file.value].id == disk0[tracks0[i].file.value].id)
  }

  function Ids(disk: Disk): set<nat> {
    set p | p in disk :: disk[p].id
  }

  /** The same audio is on disk, in as many files. */
  ghost predicate Conserved(disk0: Disk, disk: Disk) {
    Ids(disk) == Ids(disk0) && |disk| == |disk0|
  }

  /** One turn keeps an accurate index accurate and about the same audio. */
  lemma TurnKeepsAccurate(tracks: seq<Member>, disk: Disk, canonical: AlbumId, dir: Path, blocked: bool, i: nat)
    requires Accurate(tracks, disk) && i < |tracks|
    ensures var turn := TurnOf(tracks[i], disk, dir, blocked);
            var tracks2 := tracks[i := TrackAfter(tracks[i], canonical, dir, turn)];
            var disk2 := DiskAfter(tracks[i], disk, dir, turn);
            Accurate(tracks2, disk2) && SameAudio(tracks, disk, tracks2, disk2)
  {
  }

  lemma AudioThen(t0: seq<Member>, d0: Disk, t1: seq<Member>, d1: Disk, t2: seq<Member>, d2: Disk)
    requires Accurate(t0, d0) && Accurate(t1, d1) && Accurate(t2, d2)
    requires SameAudio(t0, d0, t1, d1) && SameAudio(t1, d1, t2, d2)
    ensures SameAudio(t0, d0, t2, d2)
  {
  }

  /** One row of the loop, whether it is the source's or not. */
  lemma StageKeepsAccurate(tracks: seq<Member>, disk: Disk, canonical: AlbumId, source: AlbumId,
                           dir: Path, blocked: set<nat>, n: nat)
    requires n < |tracks|
    requires var s := Staged(tracks, disk, canonical, source, dir, blocked, n); Accurate(s.tracks, s.disk)
    ensures var s := Staged(tracks, disk, canonical, source, dir, blocked, n);
            var t := Staged(tracks, disk, canonical, source, dir, blocked, n + 1);
            Accurate(t.tracks, t.disk) && SameAudio(s.tracks, s.disk, t.tracks, t.disk)
  {
    var s := Staged(tracks, disk, canonical, source, dir, blocked, n);
    TurnKeepsAccurate(s.tracks, s.disk, canonical, dir, n in blocked, n);
  }

  /** Over the loop the index stays accurate, and every row still names its own
      audio. */
  lemma {:induction false} StagesKeepAccurate(tracks: seq<Member>, disk: Disk, canonical: AlbumId, source: AlbumId,
                                              dir: Path, blocked: set<nat>, n: nat)
    requires Accurate(tracks, disk) && n <= |tracks|
    ensures var s := Staged(tracks, disk, canonical, source, dir, blocked, n);
            Accurate(s.tracks, s.disk) && SameAudio(tracks, disk, s.tracks, s.disk)
  {
    if n > 0 {
      var s := Staged(tracks, disk, canonical, source, dir, blocked, n - 1);
      var t := Staged(tracks, disk, canonical, source, dir, blocked, n);
      StagesKeepAccurate(tracks, disk, canonical, source, dir, blocked, n - 1);
      StageKeepsAccurate(tracks, disk, canonical, source, dir, blocked, n - 1);
      AudioThen(tracks, disk, s.tracks, s.disk, t.tracks, t.disk);
    }
  }

  /** A row leaves the source album exactly when its turn did not fail, and its
      file ends in the target folder exactly when it neither failed nor collided. */
  lemma {:induction false} LeavesUnlessFailed(tracks: seq<Member>, disk: Disk, canonical: AlbumId, source: AlbumId,
                                              dir: Path, blocked: set<nat>, n: nat, i: nat)
    requires i < n <= |tracks| && canonical != source
    ensures Staged(tracks, disk, canonical, source, dir, blocked, n).tracks[i].album
            == (if tracks[i].album == Some(source)
                   && !TurnAt(tracks, disk, canonical, source, dir, blocked, i).Failed?
                then Some(canonical) else tracks[i].album)
    ensures tracks[i].album == Some(source) && tracks[i].file.Some? ==>
              Staged(tracks, disk, canonical, source, dir, blocked, n).tracks[i].file
              == (if TurnAt(tracks, disk, canonical, source, dir, blocked, i) in {Collision, Failed}
                  then tracks[i].file else Some(Place(dir, tracks[i].file.value.name)))
    ensures tracks[i].album != Some(source) || tracks[i].file.None? ==>
              Staged(tracks, disk, canonical, source, dir, blocked, n).tracks[i].file == tracks[i].file
  {
    if i < n - 1 { LeavesUnlessFailed(tracks, disk, canonical, source, dir, blocked, n - 1, i); }
  }

  /** Where a row of the source goes, by what is on disk when its turn comes: it
      stays behind only if its move fails, and its path only if it is there
      already, the place is taken, or the move fails. A path whose file is gone
      is rewritten unseen. */
  lemma RowGoes(tracks: seq<Member>, disk: Disk, canonical: AlbumId, source: AlbumId, dir: Path, blocked: set<nat>,
                n: nat, i: nat)
    requires i < n <= |tracks| && canonical != source
    requires tracks[i].album == Some(source) && tracks[i].file.Some?
    ensures var now := Staged(tracks, disk, canonical, source, dir, blocked, i).disk;
            var after := Staged(tracks, disk, canonical, source, dir, blocked, n).tracks[i];
            var p, dst := tracks[i].file.value, Place(dir, tracks[i].file.value.name);
            if p == dst || (p in now && dst in now) then after == Member(Some(canonical), Some(p))
            else if p in now && i in blocked then after == tracks[i]
            else after == Member(Some(canonical), Some(dst))
  {
    LeavesUnlessFailed(tracks, disk, canonical, source, dir, blocked, n, i);
  }

  /** The source's rows by how they fare: the file is in the target folder. */
  ghost predicate AtHome(tracks: seq<Member>, source: AlbumId, dir: Path, i: nat)
    requires i < |tracks|
  {
    tracks[i].album == Some(source) && tracks[i].file.Some? && tracks[i].file.value.dir == dir
  }

  /** Its file is elsewhere and there, when its turn comes. */
  ghost predicate Elsewhere(tracks: seq<Member>, now: Disk, source: AlbumId, dir: Path, i: nat)
    requires i < |tracks|
  {
    && tracks[i].album == Some(source) && tracks[i].file.Some? && tracks[i].file.value.dir != dir
    && tracks[i].file.value in now
  }

  /** And its place is taken. */
  ghost predicate Taken(tracks: seq<Member>, now: Disk, source: AlbumId, dir: Path, i: nat)
    requires i < |tracks|
  {
    Elsewhere(tracks, now, source, dir, i) && Place(dir, tracks[i].file.value.name) in now
  }

  /** And its place is free and it can be moved. */
  ghost predicate Leaves(tracks: seq<Member>, now: Disk, source: AlbumId, dir: Path, blocked: set<nat>, i: nat)
    requires i < |tracks|
  {
    && Elsewhere(tracks, now, source, dir, i) && Place(dir, tracks[i].file.value.name) !in now
    && i !in blocked
  }

  ghost function HowManyAtHome(tracks: seq<Member>, source: AlbumId, dir: Path, n: nat): nat
    requires n <= |tracks|
  {
    if n == 0 then 0
    else HowManyAtHome(tracks, source, dir, n - 1) + if AtHome(tracks, source, dir, n - 1) then 1 else 0
  }

  ghost function HowManyTaken(tracks: seq<Member>, disk: Disk, canonical: AlbumId, source: AlbumId, dir: Path,
                              blocked: set<nat>, n: nat): nat
    requires n <= |tracks|
  {
    if n == 0 then 0
    else
      var now := Staged(tracks, disk, canonical, source, dir, blocked, n - 1).disk;
      HowManyTaken(tracks, disk, canonical, source, dir, blocked, n - 1)
      + if Taken(tracks, now, source, dir, n - 1) then 1 else 0
  }

  ghost function HowManyLeave(tracks: seq<Member>, disk: Disk, canonical: AlbumId, source: AlbumId, dir: Path,
                              blocked: set<nat>, n: nat): nat
    requires n <= |tracks|
  {
    if n == 0 then 0
    else
      var now := Staged(tracks, disk, canonical, source, dir, blocked, n - 1).disk;
      HowManyLeave(tracks, disk, canonical, source, dir, blocked, n - 1)
      + if Leaves(tracks, now, source, dir, blocked, n - 1) then 1 else 0
  }

  lemma StageCounts(tracks: seq<Member>, disk: Disk, canonical: AlbumId, source: AlbumId, dir: Path,
                    blocked: set<nat>, n: nat)
    requires n < |tracks|
    ensures var s := Staged(tracks, disk, canonical, source, dir, blocked, n);
            var t := Staged(tracks, disk, canonical, source, dir, blocked, n + 1);
            && t.already == s.already + (if AtHome(tracks, source, dir, n) then 1 else 0)
            && t.collisions == s.collisions + (if Taken(tracks, s.disk, source, dir, n) then 1 else 0)
            && t.moved == s.moved + if Leaves(tracks, s.disk, source, dir, blocked, n) then 1 else 0
  {
  }

  /** The counters count them: files that were there already, those whose place
      was taken, and those that moved. */
  lemma {:induction false} CountersAre(tracks: seq<Member>, disk: Disk, canonical: AlbumId, source: AlbumId,
                                       dir: Path, blocked: set<nat>, n: nat)
    requires n <= |tracks|
    ensures var s := Staged(tracks, disk, canonical, source, dir, blocked, n);
            && s.already == HowManyAtHome(tracks, source, dir, n)
            && s.collisions == HowManyTaken(tracks, disk, canonical, source, dir, blocked, n)
            && s.moved == HowManyLeave(tracks, disk, canonical, source, dir, blocked, n)
  {
    if n > 0 {
      CountersAre(tracks, disk, canonical, source, dir, blocked, n - 1);
      StageCounts(tracks, disk, canonical, source, dir, blocked, n - 1);
    }
  }

  predicate GotThrough(tracks: seq<Member>, disk: Disk, canonical: AlbumId, source: AlbumId, dir: Path,
                       blocked: set<nat>, i: nat)
    requires i < |tracks|
  {
    tracks[i].album == Some(source) && tracks[i].file.Some?
    && !TurnAt(tracks, disk, canonical, source, dir, blocked, i).Failed?
  }

  function HowManyGotThrough(tracks: seq<Member>, disk: Disk, canonical: AlbumId, source: AlbumId, dir: Path,
                             blocked: set<nat>, n: nat): nat
    requires n <= |tracks|
  {
    if n == 0 then 0
    else HowManyGotThrough(tracks, disk, canonical, source, dir, blocked, n - 1)
         + if GotThrough(tracks, disk, canonical, source, dir, blocked, n - 1) then 1 else 0
  }

  /** The row's file is still there when its turn comes. */
  lemma NotMissing(tracks: seq<Member>, disk: Disk, canonical: AlbumId, source: AlbumId, dir: Path,
                   blocked: set<nat>, i: nat)
    requires Accurate(tracks, disk) && i < |tracks|
    ensures !TurnAt(tracks, disk, canonical, source, dir, blocked, i).Missing?
  {
    StagesKeepAccurate(tracks, disk, canonical, source, dir, blocked, i);
    assert Staged(tracks, disk, canonical, source, dir, blocked, i).tracks[i] == tracks[i];
  }

  /** With every row accurate, the counters account for all rows of the source
      that have a file and did not fail. */
  lemma {:induction false} CountersAddUp(tracks: seq<Member>, disk: Disk, canonical: AlbumId, source: AlbumId,
                                         dir: Path, blocked: set<nat>, n: nat)
    requires Accurate(tracks, disk) && n <= |tracks|
    ensures var s := Staged(tracks, disk, canonical, source, dir, blocked, n);
            s.moved + s.already + s.collisions == HowManyGotThrough(tracks, disk, canonical, source, dir, blocked, n)
  {
    if n > 0 {
      CountersAddUp(tracks, disk, canonical, source, dir, blocked, n - 1);
      NotMissing(tracks, disk, canonical, source, dir, blocked, n - 1);
    }
  }

  // ---- The folders the files came from ----

  /** Folders of the source's files, as the rows have them before the loop. */
  function SourceDirs(tracks: seq<Member>, source: AlbumId, dir: Path): set<Path> {
    set i | 0 <= i < |tracks| && tracks[i].album == Some(source) && tracks[i].file.Some?
            && tracks[i].file.value.dir != dir :: tracks[i].file.value.dir
  }

  /** No file directly in the folder has a recognised audio name. */
  predicate Bare(disk: Disk, audio: string -> bool, d: Path) {
    forall p :: p in disk && p.dir == d ==> !audio(p.name)
  }

  /** The file lies in or below a bare one of the folders. */
  predicate Swept(disk: Disk, dirs: set<Path>, env: World, p: Place) {
    p !in env.stuck && exists d :: d in dirs && d <= p.dir && Bare(disk, env.audio, d)
  }

  function Trashed(disk: Disk, dirs: set<Path>, env: World): Disk {
    map p | p in disk && Swept(disk, dirs, env, p) :: disk[p]
  }

  function Cleared(disk: Disk, dirs: set<Path>, env: World): Disk {
    map p | p in disk && !Swept(disk, dirs, env, p) :: disk[p]
  }

  /** Everything in or below one folder that can be taken away. */
  function Under(disk: Disk, d: Path, stuck: set<Place>): Disk {
    map p | p in disk && p !in stuck && d <= p.dir :: disk[p]
  }

  /** If a folder is bare only by now, an emptied one lay above it. */
  lemma BareByNow(disk: Disk, done: set<Path>, d: Path, env: World, p: Place)
    requires Bare(Cleared(disk, done, env), env.audio, d) && p in disk && p !in env.stuck && d <= p.dir
    ensures Bare(disk, env.audio, d) || Swept(disk, done, env, p)
  {
    if !Bare(disk, env.audio, d) {
      var q :| q in disk && q.dir == d && env.audio(q.name);
      assert q !in Cleared(disk, done, env);
    }
  }

  /** The folders can be emptied one by one, in any order. */
  lemma ClearOne(disk: Disk, done: set<Path>, d: Path, env: World)
    ensures var now := Cleared(disk, done, env);
            var gone := if Bare(now, env.audio, d) then Under(now, d, env.stuck) else map[];
            && Cleared(disk, done + {d}, env) == now - gone.Keys
            && Trashed(disk, done + {d}, env) == Trashed(disk, done, env) + gone
  {
    var now := Cleared(disk, done, env);
    var gone := if Bare(now, env.audio, d) then Under(now, d, env.stuck) else map[];
    forall p | p in disk
      ensures Swept(disk, done + {d}, env, p) <==> Swept(disk, done, env, p) || p in gone
    {
      if p in gone { BareByNow(disk, done, d, env, p); }
    }
    assert Cleared(disk, done + {d}, env) == now - gone.Keys;
    assert Trashed(disk, done + {d}, env) == Trashed(disk, done, env) + gone;
  }

  lemma PartsHaveIds(disk: Disk, kept: Disk, gone: Disk)
    requires disk.Keys == kept.Keys + gone.Keys
    requires forall p :: p in kept ==> disk[p] == kept[p]
    requires forall p :: p in gone ==> disk[p] == gone[p]
    ensures Ids(disk) == Ids(kept) + Ids(gone)
  {
    forall p | p in disk ensures disk[p].id in Ids(kept) + Ids(gone) {
      if p in kept { assert kept[p] == disk[p]; } else { assert gone[p] == disk[p]; }
    }
  }

  lemma ClearingConserves(disk: Disk, dirs: set<Path>, env: World)
    ensures Ids(disk) == Ids(Cleared(disk, dirs, env)) + Ids(Trashed(disk, dirs, env))
    ensures |disk| == |Cleared(disk, dirs, env)| + |Trashed(disk, dirs, env)|
  {
    var kept, gone := Cleared(disk, dirs, env), Trashed(disk, dirs, env);
    assert disk.Keys == kept.Keys + gone.Keys;
    PartsHaveIds(disk, kept, gone);
    assert |disk.Keys| == |kept.Keys| + |gone.Keys|;
  }

  // ---- Folder, release id and tags of the canonical album ----

  /** Folder of the first of the album's files that is on disk. */
  function FolderOf(tracks: seq<Member>, disk: Disk, album: AlbumId, fallback: Path): Path {
    if tracks == [] then fallback
    else if HasFile(tracks[0], disk, album) then tracks[0].file.value.dir
    else FolderOf(tracks[1..], disk, album, fallback)
  }

  predicate HasFile(t: Member, disk: Disk, album: AlbumId) {
    t.album == Some(album) && t.file.Some? && t.file.value in disk
  }

  /** Row i is the first of the album whose file is on disk. */
  ghost predicate FirstThere(tracks: seq<Member>, disk: Disk, album: AlbumId, i: nat) {
    && i < |tracks| && tracks[i].album == Some(album) && tracks[i].file.Some? && tracks[i].file.value in disk
    && forall j: nat :: j < i && tracks[j].album == Some(album) && tracks[j].file.Some? ==>
         tracks[j].file.value !in disk
  }

  lemma FirstThereCons(tracks: seq<Member>, disk: Disk, album: AlbumId, i: nat)
    requires tracks != [] && !HasFile(tracks[0], disk, album)
    ensures FirstThere(tracks, disk, album, i) <==> i > 0 && FirstThere(tracks[1..], disk, album, i - 1)
  {
    if i > 0 {
      assert forall j :: 0 <= j < |tracks| - 1 ==> tracks[1..][j] == tracks[j + 1];
      assert forall j :: 0 < j < |tracks| ==> tracks[j] == tracks[1..][j - 1];
    }
  }

  /** It is the layout's folder exactly as a last resort. */
  lemma {:induction false} FolderIsInUse(tracks: seq<Member>, disk: Disk, album: AlbumId, fallback: Path)
    ensures var dir := FolderOf(tracks, disk, album, fallback);
            || (exists i: nat :: FirstThere(tracks, disk, album, i) && tracks[i].file.value.dir == dir)
            || (dir == fallback
                && forall t :: t in tracks && t.album == Some(album) && t.file.Some? ==> t.file.value !in disk)
  {
    if tracks != [] {
      if HasFile(tracks[0], disk, album) {
        assert FirstThere(tracks, disk, album, 0);
      } else {
        var rest, dir := tracks[1..], FolderOf(tracks, disk, album, fallback);
        FolderIsInUse(rest, disk, album, fallback);
        forall i | 0 < i < |tracks| ensures tracks[i] == rest[i - 1] {}
        if i: nat :| FirstThere(rest, disk, album, i) && rest[i].file.value.dir == dir {
          FirstThereCons(tracks, disk, album, i + 1);
          assert FirstThere(tracks, disk, album, i + 1) && tracks[i + 1] == rest[i];
        }
      }
    }
  }

  /** Release ids read from the files of the given rows, in order. */
  function ReleaseIds(tracks: seq<Member>, disk: Disk, rows: set<nat>, n: nat): seq<string>
    requires n <= |tracks|
  {
    if n == 0 then []
    else
      var ids := ReleaseIds(tracks, disk, rows, n - 1);
      if n - 1 in rows && ReleaseRead(tracks[n - 1], disk).Some? then ids + [ReleaseRead(tracks[n - 1], disk).value]
      else ids
  }

  /** The release id the row's file carries. */
  function ReleaseRead(t: Member, disk: Disk): Option<string> {
    if t.file.Some? && t.file.value in disk then disk[t.file.value].release else None
  }

  /** The most frequent value, the first seen among equals. */
  function Leader(ids: seq<string>, n: nat): (w: nat)
    requires 0 < n <= |ids|
    ensures w < n
    ensures forall j :: 0 <= j < n ==> multiset(ids)[ids[j]] <= multiset(ids)[ids[w]]
    ensures forall j :: 0 <= j < w ==> multiset(ids)[ids[j]] < multiset(ids)[ids[w]]
  {
    if n == 1 then 0
    else
      var w := Leader(ids, n - 1);
      if multiset(ids)[ids[n - 1]] > multiset(ids)[ids[w]] then n - 1 else w
  }

  /** The database value if set, else the majority among the album's files. */
  function ReleaseFor(row: AlbumRow, tracks: seq<Member>, disk: Disk, rows: set<nat>): Option<string> {
    if row.release.Some? then row.release
    else
      var ids := ReleaseIds(tracks, disk, rows, |tracks|);
      if ids == [] then None else Some(ids[Leader(ids, |ids|)])
  }

  function Members(tracks: seq<Member>, album: AlbumId): set<nat> {
    set i | 0 <= i < |tracks| && tracks[i].album == Some(album)
  }

  function Tagged(a: Audio, row: AlbumRow, artist: string, release: Option<string>): Audio {
    Audio(a.id, Some(row.title), Some(artist), row.year.Or(a.year), release.Or(a.release))
  }

  predicate FileOf(tracks: seq<Member>, rows: set<nat>, n: nat, p: Place)
    requires n <= |tracks|
  {
    exists i :: 0 <= i < n && i in rows && tracks[i].file == Some(p)
  }

  function Retagged(tracks: seq<Member>, disk: Disk, rows: set<nat>, row: AlbumRow, artist: string,
                    release: Option<string>, n: nat): Disk
    requires n <= |tracks|
  {
    map p | p in disk :: if FileOf(tracks, rows, n, p) then Tagged(disk[p], row, artist, release) else disk[p]
  }

  lemma RetagStep(tracks: seq<Member>, disk: Disk, rows: set<nat>, row: AlbumRow, artist: string,
                  release: Option<string>, n: nat)
    requires n < |tracks|
    ensures var before := Retagged(tracks, disk, rows, row, artist, release, n);
            Retagged(tracks, disk, rows, row, artist, release, n + 1)
            == if n in rows && tracks[n].file.Some? && tracks[n].file.value in disk
               then before[tracks[n].file.value := Tagged(before[tracks[n].file.value], row, artist, release)]
               else before
  {
    forall p ensures FileOf(tracks, rows, n + 1, p)
                     == (FileOf(tracks, rows, n, p) || (n in rows && tracks[n].file == Some(p)))
    {
    }
  }

  lemma SameIdsConserve(disk: Disk, after: Disk)
    requires after.Keys == disk.Keys && forall p :: p in disk ==> after[p].id == disk[p].id
    ensures Conserved(disk, after)
  {
    forall p | p in disk ensures disk[p].id in Ids(after) && after[p].id in Ids(disk) {
      assert p in after && p in after.Keys;
    }
    assert |after.Keys| == |disk.Keys|;
  }

  lemma RetagKeepsAudio(tracks: seq<Member>, disk: Disk, rows: set<nat>, row: AlbumRow, artist: string,
                        release: Option<string>)
    ensures var after := Retagged(tracks, disk, rows, row, artist, release, |tracks|);
            && after.Keys == disk.Keys && Conserved(disk, after)
            && forall p :: p in disk ==> after[p].id == disk[p].id
  {
    SameIdsConserve(disk, Retagged(tracks, disk, rows, row, artist, release, |tracks|));
  }

  // ---- The whole merge ----

  function Without(albums: seq<AlbumRow>, id: AlbumId): (r: seq<AlbumRow>)
    ensures forall a :: a in r <==> a in albums && a.id != id
  {
    if albums == [] then []
    else if albums[0].id == id then Without(albums[1..], id)
    else [albums[0]] + Without(albums[1..], id)
  }

  function ArtistName(l: Lib, row: AlbumRow): string {
    if row.artist in l.artists then l.artists[row.artist] else "Unknown"
  }

  datatype Outcome = Outcome(lib: Lib, moved: nat, already: nat, collisions: nat)

  predicate Mergeable(l: Lib, canonical: AlbumId, source: AlbumId) {
    Find(l.albums, canonical) < |l.albums| && Find(l.albums, source) < |l.albums| && canonical != source
  }

  function HomeDir(l: Lib, canonical: AlbumId, env: World): Path
    requires Find(l.albums, canonical) < |l.albums|
  {
    FolderOf(l.tracks, l.disk, canonical, env.home(l.albums[Find(l.albums, canonical)]))
  }

  /** Once the moving loop is through. */
  function StageOf(l: Lib, canonical: AlbumId, source: AlbumId, env: World): Stage
    requires Mergeable(l, canonical, source)
  {
    Staged(l.tracks, l.disk, canonical, source, HomeDir(l, canonical, env), env.blocked, |l.tracks|)
  }

  function DirsOf(l: Lib, canonical: AlbumId, source: AlbumId, env: World): set<Path>
    requires Mergeable(l, canonical, source)
  {
    SourceDirs(l.tracks, source, HomeDir(l, canonical, env))
  }

  /** The disk once the folders left without audio have been emptied. */
  function ClearedDisk(l: Lib, canonical: AlbumId, source: AlbumId, env: World): Disk
    requires Mergeable(l, canonical, source)
  {
    Cleared(StageOf(l, canonical, source, env).disk, DirsOf(l, canonical, source, env), env)
  }

  function TrashOf(l: Lib, canonical: AlbumId, source: AlbumId, env: World): Disk
    requires Mergeable(l, canonical, source)
  {
    Trashed(StageOf(l, canonical, source, env).disk, DirsOf(l, canonical, source, env), env)
  }

  function MergedRelease(l: Lib, canonical: AlbumId, source: AlbumId, env: World): Option<string>
    requires Mergeable(l, canonical, source)
  {
    ReleaseFor(l.albums[Find(l.albums, canonical)], StageOf(l, canonical, source, env).tracks,
               ClearedDisk(l, canonical, source, env), Members(l.tracks, canonical))
  }

  function MergedDisk(l: Lib, canonical: AlbumId, source: AlbumId, env: World): Disk
    requires Mergeable(l, canonical, source)
  {
    var row := l.albums[Find(l.albums, canonical)];
    Retagged(StageOf(l, canonical, source, env).tracks, ClearedDisk(l, canonical, source, env),
             Members(l.tracks, source), row, ArtistName(l, row), MergedRelease(l, canonical, source, env), |l.tracks|)
  }

  function MergedAlbums(albums: seq<AlbumRow>, canonical: AlbumId, source: AlbumId,
                        release: Option<string>): seq<AlbumRow>
    requires Find(albums, canonical) < |albums|
  {
    var c := Find(albums, canonical);
    Without(albums[c := albums[c].(release := albums[c].release.Or(release))], source)
  }

  function MergedInto(l: Lib, canonical: AlbumId, source: AlbumId, env: World): Outcome {
    if !Mergeable(l, canonical, source) then Outcome(l, 0, 0, 0)
    else
      var st := StageOf(l, canonical, source, env);
      Outcome(Lib(MergedAlbums(l.albums, canonical, source, MergedRelease(l, canonical, source, env)), l.artists,
                  st.tracks, MergedDisk(l, canonical, source, env), l.trash + [TrashOf(l, canonical, source, env)]),
              st.moved, st.already, st.collisions)
  }

  /** Nothing happens unless both rows are there and are two. */
  lemma NothingToMerge(l: Lib, canonical: AlbumId, source: AlbumId, env: World)
    requires canonical == source || (forall a :: a in l.albums ==> a.id != canonical)
             || forall a :: a in l.albums ==> a.id != source
    ensures MergedInto(l, canonical, source, env) == Outcome(l, 0, 0, 0)
  {
    FoundIff(l.albums, canonical);
    FoundIff(l.albums, source);
  }

  lemma FoundIff(albums: seq<AlbumRow>, id: AlbumId)
    ensures Find(albums, id) < |albums| <==> exists a :: a in albums && a.id == id
  {
    if Find(albums, id) < |albums| { assert albums[Find(albums, id)] in albums; }
  }

  /** And if they are, the source's row is gone and no other. */
  lemma SourceRowGoes(l: Lib, canonical: AlbumId, source: AlbumId, env: World)
    requires canonical != source
    requires (exists a :: a in l.albums && a.id == canonical) && exists a :: a in l.albums && a.id == source
    ensures var after := MergedInto(l, canonical, source, env).lib.albums;
            && (forall a :: a in after ==> a.id != source)
            && (forall a :: a in l.albums && a.id != source && a.id != canonical ==> a in after)
            && (exists a :: a in after && a.id == canonical)
  {
    RowGetsRelease(l, canonical, source, env);
    var c := Find(l.albums, canonical);
    var release := MergedRelease(l, canonical, source, env);
    var filled := l.albums[c := l.albums[c].(release := l.albums[c].release.Or(release))];
    forall a | a in l.albums && a.id != canonical ensures a in filled {
      var i :| 0 <= i < |l.albums| && l.albums[i] == a;
      assert filled[i] == a;
    }
    var after := MergedInto(l, canonical, source, env).lib.albums;
    assert after[Find(after, canonical)] in after;
  }

  /** The move of row i failed during this merge. */
  predicate FailedIn(l: Lib, canonical: AlbumId, source: AlbumId, env: World, i: nat)
    requires i < |l.tracks|
  {
    Mergeable(l, canonical, source) && l.tracks[i].album == Some(source) && TurnIn(l, canonical, source, env, i).Failed?
  }

  /** How row i of the source fares in this merge. */
  function TurnIn(l: Lib, canonical: AlbumId, source: AlbumId, env: World, i: nat): Turn
    requires i < |l.tracks| && Mergeable(l, canonical, source)
  {
    TurnAt(l.tracks, l.disk, canonical, source, HomeDir(l, canonical, env), env.blocked, i)
  }

  // ---- The files ----

  function TrashIds(trash: seq<Disk>): set<nat> {
    if trash == [] then {} else TrashIds(trash[..|trash| - 1]) + Ids(trash[|trash| - 1])
  }

  function TrashCount(trash: seq<Disk>): nat {
    if trash == [] then 0 else TrashCount(trash[..|trash| - 1]) + |trash[|trash| - 1]|
  }

  /** Library and trash together were given the same files, and as many. */
  ghost predicate NothingLost(before: Lib, after: Lib) {
    && Ids(after.disk) + TrashIds(after.trash) == Ids(before.disk) + TrashIds(before.trash)
    && |after.disk| + TrashCount(after.trash) == |before.disk| + TrashCount(before.trash)
  }

  lemma MoveConserves(disk: Disk, src: Place, dst: Place)
    requires src in disk && dst !in disk
    ensures Conserved(disk, (disk - {src})[dst := disk[src]])
  {
    var after := (disk - {src})[dst := disk[src]];
    assert after.Keys == disk.Keys - {src} + {dst};
    forall p | p in disk ensures disk[p].id in Ids(after) {
      if p == src { assert dst in after && after[dst] == disk[p]; } else { assert p in after && after[p] == disk[p]; }
    }
    forall p | p in after ensures after[p].id in Ids(disk) {
      if p == dst { assert src in disk; } else { assert p in disk; }
    }
  }

  lemma TurnConserves(t: Member, disk: Disk, dir: Path, blocked: bool)
    ensures Conserved(disk, DiskAfter(t, disk, dir, TurnOf(t, disk, dir, blocked)))
  {
    if TurnOf(t, disk, dir, blocked).Moved? {
      MoveConserves(disk, t.file.value, Place(dir, t.file.value.name));
    }
  }

  /** The loop neither loses nor overwrites a file, true index or not. */
  lemma {:induction false} StagesConserve(tracks: seq<Member>, disk: Disk, canonical: AlbumId, source: AlbumId,
                                          dir: Path, blocked: set<nat>, n: nat)
    requires n <= |tracks|
    ensures Conserved(disk, Staged(tracks, disk, canonical, source, dir, blocked, n).disk)
  {
    if n > 0 {
      StagesConserve(tracks, disk, canonical, source, dir, blocked, n - 1);
      TurnConserves(tracks[n - 1], Staged(tracks, disk, canonical, source, dir, blocked, n - 1).disk, dir,
                    n - 1 in blocked);
    }
  }

  lemma TrashGrows(trash: seq<Disk>, gone: Disk)
    ensures TrashIds(trash + [gone]) == TrashIds(trash) + Ids(gone)
    ensures TrashCount(trash + [gone]) == TrashCount(trash) + |gone|
  {
    assert (trash + [gone])[..|trash|] == trash;
  }

  lemma HandedOver(before: Lib, moved: Disk, dirs: set<Path>, env: World, after: Lib)
    requires Conserved(before.disk, moved) && Conserved(Cleared(moved, dirs, env), after.disk)
    requires after.trash == before.trash + [Trashed(moved, dirs, env)]
    ensures NothingLost(before, after)
  {
    ClearingConserves(moved, dirs, env);
    TrashGrows(before.trash, Trashed(moved, dirs, env));
  }

  lemma RetagConserves(l: Lib, canonical: AlbumId, source: AlbumId, env: World)
    requires Mergeable(l, canonical, source)
    ensures Conserved(ClearedDisk(l, canonical, source, env), MergedDisk(l, canonical, source, env))
  {
    var row := l.albums[Find(l.albums, canonical)];
    RetagKeepsAudio(StageOf(l, canonical, source, env).tracks, ClearedDisk(l, canonical, source, env),
                    Members(l.tracks, source), row, ArtistName(l, row), MergedRelease(l, canonical, source, env));
  }

  /** What leaves the library is handed to the trash, and nothing else is lost. */
  lemma MergeLosesNothing(l: Lib, canonical: AlbumId, source: AlbumId, env: World)
    ensures NothingLost(l, MergedInto(l, canonical, source, env).lib)
  {
    if Mergeable(l, canonical, source) {
      StagesConserve(l.tracks, l.disk, canonical, source, HomeDir(l, canonical, env), env.blocked, |l.tracks|);
      RetagConserves(l, canonical, source, env);
      HandedOver(l, StageOf(l, canonical, source, env).disk, DirsOf(l, canonical, source, env), env,
                 MergedInto(l, canonical, source, env).lib);
    }
  }

  /** Outside the target folder the loop only takes files away, those moved. */
  lemma {:induction false} StagedElsewhere(tracks: seq<Member>, disk: Disk, canonical: AlbumId, source: AlbumId,
                                           dir: Path, blocked: set<nat>, n: nat, p: Place)
    requires n <= |tracks| && p.dir != dir
    ensures p in Staged(tracks, disk, canonical, source, dir, blocked, n).disk <==>
            p in disk && !exists j :: 0 <= j < n && MovedFrom(tracks, disk, canonical, source, dir, blocked, j, p)
  {
    if n > 0 {
      StagedElsewhere(tracks, disk, canonical, source, dir, blocked, n - 1, p);
      var s := Staged(tracks, disk, canonical, source, dir, blocked, n - 1);
      assert MovedFrom(tracks, disk, canonical, source, dir, blocked, n - 1, p) ==> p in s.disk;
    }
  }

  predicate MovedFrom(tracks: seq<Member>, disk: Disk, canonical: AlbumId, source: AlbumId, dir: Path,
                      blocked: set<nat>, j: nat, p: Place)
    requires j < |tracks|
  {
    && tracks[j].album == Some(source) && tracks[j].file == Some(p)
    && TurnAt(tracks, disk, canonical, source, dir, blocked, j).Moved?
  }

  /** Every recognised audio file directly in the folder moves to the canonical
      album's: nothing else keeps the folder. */
  ghost predicate LeftBare(l: Lib, canonical: AlbumId, source: AlbumId, env: World, d: Path)
    requires Mergeable(l, canonical, source)
  {
    forall p :: p in l.disk && p.dir == d && env.audio(p.name) ==>
      exists j :: 0 <= j < |l.tracks| && l.tracks[j].album == Some(source) && l.tracks[j].file == Some(p)
                  && TurnIn(l, canonical, source, env, j).Moved?
  }

  lemma BareIff(l: Lib, canonical: AlbumId, source: AlbumId, env: World, d: Path)
    requires Mergeable(l, canonical, source) && d in DirsOf(l, canonical, source, env)
    ensures Bare(StageOf(l, canonical, source, env).disk, env.audio, d) <==> LeftBare(l, canonical, source, env, d)
  {
    var dir, st := HomeDir(l, canonical, env), StageOf(l, canonical, source, env);
    forall p: Place | p.dir == d
      ensures p in st.disk <==>
              p in l.disk && !exists j :: 0 <= j < |l.tracks|
                                          && MovedFrom(l.tracks, l.disk, canonical, source, dir, env.blocked, j, p)
    {
      StagedElsewhere(l.tracks, l.disk, canonical, source, dir, env.blocked, |l.tracks|, p);
    }
    forall p, j | 0 <= j < |l.tracks|
      ensures MovedFrom(l.tracks, l.disk, canonical, source, dir, env.blocked, j, p) <==>
              l.tracks[j].album == Some(source) && l.tracks[j].file == Some(p)
              && TurnIn(l, canonical, source, env, j).Moved?
    {
    }
  }

  /** Where the moving loop leaves the path of row i. */
  function EndsAt(l: Lib, canonical: AlbumId, source: AlbumId, env: World, i: nat): Place
    requires i < |l.tracks| && l.tracks[i].file.Some? && Mergeable(l, canonical, source)
  {
    var p := l.tracks[i].file.value;
    if l.tracks[i].album != Some(source) || TurnIn(l, canonical, source, env, i) in {Collision, Failed} then p
    else Place(HomeDir(l, canonical, env), p.name)
  }

  /** Row i, of whatever album, has its file in or below a source folder that
      is left without recognised audio. */
  ghost predicate Abandons(l: Lib, canonical: AlbumId, source: AlbumId, env: World, i: nat)
    requires i < |l.tracks|
  {
    && Mergeable(l, canonical, source) && l.tracks[i].file.Some?
    && var p := EndsAt(l, canonical, source, env, i);
       p !in env.stuck && exists j :: 0 <= j < |l.tracks| && ComesFrom(l, canonical, source, env, j, p.dir)
  }

  /** Row j is the source's, its folder is not the target folder, is left bare,
      and has `dir` in or below it. */
  ghost predicate ComesFrom(l: Lib, canonical: AlbumId, source: AlbumId, env: World, j: nat, dir: Path)
    requires j < |l.tracks| && Mergeable(l, canonical, source)
  {
    && l.tracks[j].album == Some(source) && l.tracks[j].file.Some?
    && l.tracks[j].file.value.dir != HomeDir(l, canonical, env) && l.tracks[j].file.value.dir <= dir
    && LeftBare(l, canonical, source, env, l.tracks[j].file.value.dir)
  }

  ghost predicate AbandonsNone(l: Lib, canonical: AlbumId, source: AlbumId, env: World) {
    forall i :: 0 <= i < |l.tracks| ==> !Abandons(l, canonical, source, env, i)
  }

  /** The path of row i after the loop, and whether its file then goes. */
  lemma AbandonedIff(l: Lib, canonical: AlbumId, source: AlbumId, env: World, i: nat)
    requires i < |l.tracks| && l.tracks[i].file.Some? && Mergeable(l, canonical, source)
    ensures var st, p := StageOf(l, canonical, source, env), EndsAt(l, canonical, source, env, i);
            && st.tracks[i].file == Some(p)
            && (Swept(st.disk, DirsOf(l, canonical, source, env), env, p) <==> Abandons(l, canonical, source, env, i))
  {
    LeavesUnlessFailed(l.tracks, l.disk, canonical, source, HomeDir(l, canonical, env), env.blocked, |l.tracks|, i);
    forall d | d in DirsOf(l, canonical, source, env)
      ensures Bare(StageOf(l, canonical, source, env).disk, env.audio, d) <==> LeftBare(l, canonical, source, env, d)
    {
      BareIff(l, canonical, source, env, d);
    }
    var p := EndsAt(l, canonical, source, env, i);
    forall j | 0 <= j < |l.tracks| && ComesFrom(l, canonical, source, env, j, p.dir)
      ensures l.tracks[j].file.value.dir in DirsOf(l, canonical, source, env)
    {
    }
    forall d | d in DirsOf(l, canonical, source, env) && d <= p.dir && LeftBare(l, canonical, source, env, d)
      ensures exists j :: 0 <= j < |l.tracks| && ComesFrom(l, canonical, source, env, j, p.dir)
    {
      var j :| 0 <= j < |l.tracks| && l.tracks[j].album == Some(source) && l.tracks[j].file.Some?
               && l.tracks[j].file.value.dir == d;
      assert ComesFrom(l, canonical, source, env, j, p.dir);
    }
  }

  /** Row i names a file that is there, and it is the one it named before. */
  ghost predicate OwnAudio(before: Lib, after: Lib, i: nat)
    requires i < |before.tracks| && Accurate(before.tracks, before.disk)
  {
    && i < |after.tracks| && after.tracks[i].file.Some? == before.tracks[i].file.Some?
    && (after.tracks[i].file.Some? ==>
          && after.tracks[i].file.value in after.disk
          && after.disk[after.tracks[i].file.value].id == before.disk[before.tracks[i].file.value].id)
  }

  /** On an accurate index a merge leaves every row its own audio, except
      exactly those whose file it abandons; so the index stays accurate exactly
      when it abandons none. */
  lemma MergeKeepsAccurate(l: Lib, canonical: AlbumId, source: AlbumId, env: World)
    requires Accurate(l.tracks, l.disk)
    ensures var after := MergedInto(l, canonical, source, env).lib;
            && |after.tracks| == |l.tracks|
            && (forall i :: 0 <= i < |l.tracks| ==>
                  (OwnAudio(l, after, i) <==> !Abandons(l, canonical, source, env, i)))
            && (Accurate(after.tracks, after.disk) <==> AbandonsNone(l, canonical, source, env))
  {
    var after := MergedInto(l, canonical, source, env).lib;
    if Mergeable(l, canonical, source) {
      var st := StageOf(l, canonical, source, env);
      StagesKeepAccurate(l.tracks, l.disk, canonical, source, HomeDir(l, canonical, env), env.blocked, |l.tracks|);
      forall i | 0 <= i < |l.tracks| && l.tracks[i].file.Some?
        ensures OwnAudio(l, after, i) <==> !Abandons(l, canonical, source, env, i)
        ensures after.tracks[i].file.Some?
                && (after.tracks[i].file.value in after.disk <==> !Abandons(l, canonical, source, env, i))
      {
        AbandonedIff(l, canonical, source, env, i);
      }
    }
  }

  /** One album, whose rows differ in their MusicBrainz ids at most. */
  predicate SameAlbum(a: AlbumRow, b: AlbumRow) {
    a.id == b.id && a.title == b.title && a.artist == b.artist && a.year == b.year
  }

  /** A folder that files of the library are in, or that the layout would give
      the album. */
  ghost predicate Used(tracks: seq<Member>, row: AlbumRow, env: World, d: Path) {
    || (exists i :: 0 <= i < |tracks| && tracks[i].file.Some? && tracks[i].file.value.dir == d)
    || (exists r: AlbumRow :: SameAlbum(r, row) && env.home(r) == d)
  }

  /** Every file has a name the trash step knows, and no folder in use lies
      below another. */
  ghost predicate Tidy(tracks: seq<Member>, row: AlbumRow, env: World) {
    && (forall i :: 0 <= i < |tracks| && tracks[i].file.Some? ==> env.audio(tracks[i].file.value.name))
    && (forall d, e :: Used(tracks, row, env, d) && Used(tracks, row, env, e) && d <= e ==> d == e)
  }

  lemma HomeIsUsed(l: Lib, canonical: AlbumId, env: World)
    requires Find(l.albums, canonical) < |l.albums|
    ensures Used(l.tracks, l.albums[Find(l.albums, canonical)], env, HomeDir(l, canonical, env))
  {
    var row := l.albums[Find(l.albums, canonical)];
    FolderIsInUse(l.tracks, l.disk, canonical, env.home(row));
    assert SameAlbum(row, row);
  }

  /** In a tidy library a merge abandons no row. */
  lemma TidyAbandonsNone(l: Lib, canonical: AlbumId, source: AlbumId, env: World)
    requires Mergeable(l, canonical, source) && Accurate(l.tracks, l.disk)
    requires Tidy(l.tracks, l.albums[Find(l.albums, canonical)], env)
    ensures AbandonsNone(l, canonical, source, env)
  {
    var row, dir := l.albums[Find(l.albums, canonical)], HomeDir(l, canonical, env);
    HomeIsUsed(l, canonical, env);
    forall i | 0 <= i < |l.tracks| && l.tracks[i].file.Some? ensures !Abandons(l, canonical, source, env, i) {
      var p := EndsAt(l, canonical, source, env, i);
      assert Used(l.tracks, row, env, l.tracks[i].file.value.dir);
      forall d | d in DirsOf(l, canonical, source, env) && d <= p.dir
        ensures !LeftBare(l, canonical, source, env, d)
      {
        assert Used(l.tracks, row, env, d);
        assert d == p.dir && p == l.tracks[i].file.value;
        assert !exists j :: 0 <= j < |l.tracks| && l.tracks[j].album == Some(source) && l.tracks[j].file == Some(p)
                            && TurnIn(l, canonical, source, env, j).Moved?;
      }
    }
  }

  /** A merge leaves a tidy library tidy. */
  lemma MergeKeepsTidy(l: Lib, canonical: AlbumId, source: AlbumId, env: World)
    requires Mergeable(l, canonical, source) && Tidy(l.tracks, l.albums[Find(l.albums, canonical)], env)
    ensures Tidy(MergedInto(l, canonical, source, env).lib.tracks, l.albums[Find(l.albums, canonical)], env)
  {
    var row, after := l.albums[Find(l.albums, canonical)], MergedInto(l, canonical, source, env).lib;
    HomeIsUsed(l, canonical, env);
    forall i | 0 <= i < |after.tracks| && after.tracks[i].file.Some?
      ensures env.audio(after.tracks[i].file.value.name)
      ensures Used(l.tracks, row, env, after.tracks[i].file.value.dir)
    {
      LeavesUnlessFailed(l.tracks, l.disk, canonical, source, HomeDir(l, canonical, env), env.blocked, |l.tracks|, i);
      assert Used(l.tracks, row, env, l.tracks[i].file.value.dir);
    }
    forall d | Used(after.tracks, row, env, d) ensures Used(l.tracks, row, env, d) {}
  }

  /** Who refers to the source afterwards: exactly the rows whose move failed. */
  lemma DanglingIffFailed(l: Lib, canonical: AlbumId, source: AlbumId, env: World,
                          i: nat)
    requires i < |l.tracks| && Mergeable(l, canonical, source)
    ensures var after := MergedInto(l, canonical, source, env).lib;
            && |after.tracks| == |l.tracks|
            && after.tracks[i].album
               == (if l.tracks[i].album == Some(source) && !FailedIn(l, canonical, source, env, i)
                   then Some(canonical) else l.tracks[i].album)
  {
    LeavesUnlessFailed(l.tracks, l.disk, canonical, source, HomeDir(l, canonical, env), env.blocked, |l.tracks|, i);
  }

  /** Rows of the album, by position, whose file on this disk carries the id. */
  ghost function Carriers(tracks: seq<Member>, disk: Disk, album: AlbumId, id: string): set<nat> {
    set i | 0 <= i < |tracks| && tracks[i].album == Some(album) && tracks[i].file.Some?
            && tracks[i].file.value in disk && disk[tracks[i].file.value].release == Some(id)
  }

  predicate Carries(tracks: seq<Member>, disk: Disk, rows: set<nat>, i: nat, id: string)
    requires i < |tracks|
  {
    i in rows && ReleaseRead(tracks[i], disk) == Some(id)
  }

  ghost function CarriersBefore(tracks: seq<Member>, disk: Disk, rows: set<nat>, id: string, n: nat): set<nat>
    requires n <= |tracks|
  {
    set i | 0 <= i < n && Carries(tracks, disk, rows, i, id)
  }

  function Times(tracks: seq<Member>, disk: Disk, rows: set<nat>, n: nat, id: string): nat
    requires n <= |tracks|
  {
    if n == 0 then 0
    else Times(tracks, disk, rows, n - 1, id) + if Carries(tracks, disk, rows, n - 1, id) then 1 else 0
  }

  lemma {:induction false} TimesRead(tracks: seq<Member>, disk: Disk, rows: set<nat>, n: nat, id: string)
    requires n <= |tracks|
    ensures multiset(ReleaseIds(tracks, disk, rows, n))[id] == Times(tracks, disk, rows, n, id)
  {
    if n > 0 {
      TimesRead(tracks, disk, rows, n - 1, id);
      OneMoreRead(tracks, disk, rows, n, id);
    }
  }

  lemma {:induction false} TimesCarried(tracks: seq<Member>, disk: Disk, rows: set<nat>, n: nat, id: string)
    requires n <= |tracks|
    ensures |CarriersBefore(tracks, disk, rows, id, n)| == Times(tracks, disk, rows, n, id)
  {
    if n > 0 {
      TimesCarried(tracks, disk, rows, n - 1, id);
      CarriersGrow(tracks, disk, rows, n, id);
    }
  }

  /** An id is read as often as rows carry it. */
  lemma ReadAsOften(tracks: seq<Member>, disk: Disk, rows: set<nat>, n: nat, id: string)
    requires n <= |tracks|
    ensures multiset(ReleaseIds(tracks, disk, rows, n))[id] == |CarriersBefore(tracks, disk, rows, id, n)|
  {
    TimesRead(tracks, disk, rows, n, id);
    TimesCarried(tracks, disk, rows, n, id);
  }

  lemma OneMoreRead(tracks: seq<Member>, disk: Disk, rows: set<nat>, n: nat, id: string)
    requires 0 < n <= |tracks|
    ensures multiset(ReleaseIds(tracks, disk, rows, n))[id]
            == multiset(ReleaseIds(tracks, disk, rows, n - 1))[id]
               + if Carries(tracks, disk, rows, n - 1, id) then 1 else 0
  {
    var ids, r := ReleaseIds(tracks, disk, rows, n - 1), ReleaseRead(tracks[n - 1], disk);
    if n - 1 in rows && r.Some? { CountSnoc(ids, r.value, id); }
  }

  lemma CountSnoc(ids: seq<string>, last: string, id: string)
    ensures multiset(ids + [last])[id] == multiset(ids)[id] + if last == id then 1 else 0
  {
  }

  lemma CarriersGrow(tracks: seq<Member>, disk: Disk, rows: set<nat>, n: nat, id: string)
    requires 0 < n <= |tracks|
    ensures |CarriersBefore(tracks, disk, rows, id, n)|
            == |CarriersBefore(tracks, disk, rows, id, n - 1)| + if Carries(tracks, disk, rows, n - 1, id) then 1 else 0
  {
    var front, last := CarriersBefore(tracks, disk, rows, id, n - 1), Carries(tracks, disk, rows, n - 1, id);
    assert CarriersBefore(tracks, disk, rows, id, n) == if last then front + {n - 1} else front;
  }

  /** Where the id carried by row i is read. */
  lemma {:induction false} ReadAt(tracks: seq<Member>, disk: Disk, rows: set<nat>, n: nat, i: nat, id: string)
    requires i < n <= |tracks| && Carries(tracks, disk, rows, i, id)
    ensures var k := |ReleaseIds(tracks, disk, rows, i)|;
            k < |ReleaseIds(tracks, disk, rows, n)| && ReleaseIds(tracks, disk, rows, n)[k] == id
  {
    if i < n - 1 { ReadAt(tracks, disk, rows, n - 1, i, id); }
  }

  /** Every id read is that of some row, read in row order. */
  lemma {:induction false} ReadFrom(tracks: seq<Member>, disk: Disk, rows: set<nat>, n: nat, k: nat) returns (i: nat)
    requires n <= |tracks| && k < |ReleaseIds(tracks, disk, rows, n)|
    ensures i < n && k == |ReleaseIds(tracks, disk, rows, i)|
    ensures Carries(tracks, disk, rows, i, ReleaseIds(tracks, disk, rows, n)[k])
  {
    if k == |ReleaseIds(tracks, disk, rows, n - 1)| { i := n - 1; }
    else { i := ReadFrom(tracks, disk, rows, n - 1, k); }
  }

  lemma {:induction false} ReadsGrow(tracks: seq<Member>, disk: Disk, rows: set<nat>, i: nat, j: nat)
    requires i <= j <= |tracks|
    ensures |ReleaseIds(tracks, disk, rows, i)| <= |ReleaseIds(tracks, disk, rows, j)|
  {
    if i < j { ReadsGrow(tracks, disk, rows, i, j - 1); }
  }

  /** The id chosen is the one that most rows carry, and among equals the one
      that a row carries first. */
  ghost predicate Favourite(tracks: seq<Member>, disk: Disk, album: AlbumId, id: string) {
    && Carriers(tracks, disk, album, id) != {}
    && forall other :: other != id ==>
         Outdone(Carriers(tracks, disk, album, other), Carriers(tracks, disk, album, id))
  }

  ghost predicate Outdone(theirs: set<nat>, ours: set<nat>) {
    |theirs| < |ours| || (|theirs| == |ours| && exists i :: i in ours && forall j :: j in theirs ==> i < j)
  }

  /** On rows whose paths the loop left alone, carriers are the same. */
  lemma OwnCarriers(l: Lib, canonical: AlbumId, source: AlbumId, env: World, id: string)
    requires Mergeable(l, canonical, source)
    ensures var st, disk := StageOf(l, canonical, source, env), ClearedDisk(l, canonical, source, env);
            Carriers(l.tracks, disk, canonical, id)
            == CarriersBefore(st.tracks, disk, Members(l.tracks, canonical), id, |st.tracks|)
  {
    var st := StageOf(l, canonical, source, env);
    forall i | 0 <= i < |l.tracks| && l.tracks[i].album == Some(canonical)
      ensures st.tracks[i].file == l.tracks[i].file
    {
      LeavesUnlessFailed(l.tracks, l.disk, canonical, source, HomeDir(l, canonical, env), env.blocked, |l.tracks|, i);
    }
  }

  lemma LeaderLeads(ids: seq<string>, other: string)
    requires ids != []
    ensures var w := Leader(ids, |ids|);
            && multiset(ids)[other] <= multiset(ids)[ids[w]]
            && (multiset(ids)[other] == multiset(ids)[ids[w]] ==>
                  forall k :: 0 <= k < w ==> ids[k] != other)
  {
    if other in ids {
      var k :| 0 <= k < |ids| && ids[k] == other;
    } else {
      assert other !in multiset(ids);
    }
  }

  /** If an id is not among the first w read, no row carries it before the row
      that the next was read from. */
  lemma CarriedLater(tracks: seq<Member>, disk: Disk, rows: set<nat>, n: nat, i: nat, j: nat, other: string)
    requires i < n <= |tracks| && |ReleaseIds(tracks, disk, rows, i)| < |ReleaseIds(tracks, disk, rows, n)|
    requires j < n && Carries(tracks, disk, rows, j, other)
    requires forall k :: 0 <= k <= |ReleaseIds(tracks, disk, rows, i)| ==> ReleaseIds(tracks, disk, rows, n)[k] != other
    ensures i < j
  {
    ReadAt(tracks, disk, rows, n, j, other);
    if j <= i { ReadsGrow(tracks, disk, rows, j, i); }
  }

  /** The row from which the leader was first read. */
  lemma LeaderFrom(tracks: seq<Member>, disk: Disk, rows: set<nat>, ids: seq<string>) returns (i: nat)
    requires ids == ReleaseIds(tracks, disk, rows, |tracks|) && ids != []
    ensures var w := Leader(ids, |ids|);
            && i in CarriersBefore(tracks, disk, rows, ids[w], |tracks|)
            && i < |tracks| && w == |ReleaseIds(tracks, disk, rows, i)|
  {
    i := ReadFrom(tracks, disk, rows, |tracks|, Leader(ids, |ids|));
  }

  lemma Counts(tracks: seq<Member>, disk: Disk, rows: set<nat>, ids: seq<string>, other: string)
    requires ids == ReleaseIds(tracks, disk, rows, |tracks|) && ids != []
    ensures var w := Leader(ids, |ids|);
            var ours := CarriersBefore(tracks, disk, rows, ids[w], |tracks|);
            var theirs := CarriersBefore(tracks, disk, rows, other, |tracks|);
            |theirs| <= |ours| && (|theirs| == |ours| ==> forall k :: 0 <= k < w ==> ids[k] != other)
  {
    ReadAsOften(tracks, disk, rows, |tracks|, ids[Leader(ids, |ids|)]);
    ReadAsOften(tracks, disk, rows, |tracks|, other);
    LeaderLeads(ids, other);
  }

  /** Rows with an id first read later come later. */
  lemma AllLater(tracks: seq<Member>, disk: Disk, rows: set<nat>, ids: seq<string>, i: nat, w: nat, other: string)
    requires ids == ReleaseIds(tracks, disk, rows, |tracks|) && i < |tracks|
    requires w == |ReleaseIds(tracks, disk, rows, i)| < |ids| && forall k :: 0 <= k <= w ==> ids[k] != other
    ensures forall j :: j in CarriersBefore(tracks, disk, rows, other, |tracks|) ==> i < j
  {
    forall j | j in CarriersBefore(tracks, disk, rows, other, |tracks|) ensures i < j {
      CarriedLater(tracks, disk, rows, |tracks|, i, j, other);
    }
  }

  lemma FirstOutdoes(theirs: set<nat>, ours: set<nat>, i: nat)
    requires i in ours && |theirs| <= |ours| && (|theirs| == |ours| ==> forall j :: j in theirs ==> i < j)
    ensures Outdone(theirs, ours)
  {
  }

  /** An id read from row i, that no other outnumbers. */
  lemma LeaderOutdoes(tracks: seq<Member>, disk: Disk, rows: set<nat>, ids: seq<string>, w: nat, i: nat, other: string,
                      ours: set<nat>, theirs: set<nat>)
    requires ids == ReleaseIds(tracks, disk, rows, |tracks|) && w < |ids| && other != ids[w] && i in ours
    requires i < |tracks| && w == |ReleaseIds(tracks, disk, rows, i)|
    requires theirs == CarriersBefore(tracks, disk, rows, other, |tracks|)
    requires |theirs| <= |ours| && (|theirs| == |ours| ==> forall k :: 0 <= k < w ==> ids[k] != other)
    ensures Outdone(theirs, ours)
  {
    if |theirs| == |ours| { AllLater(tracks, disk, rows, ids, i, w, other); }
    FirstOutdoes(theirs, ours, i);
  }

  /** The release id of a merge: the canonical row's, or else the favourite among
      the album's own files, as far as they are left, and none only if none of
      them carries one. The row ends with it. */
  lemma MergedReleaseIs(l: Lib, canonical: AlbumId, source: AlbumId, env: World)
    requires Mergeable(l, canonical, source)
    ensures var row, release := l.albums[Find(l.albums, canonical)], MergedRelease(l, canonical, source, env);
            var disk := ClearedDisk(l, canonical, source, env);
            && (row.release.Some? ==> release == row.release)
            && (row.release.None? && release.None? ==> forall id :: Carriers(l.tracks, disk, canonical, id) == {})
            && (row.release.None? && release.Some? ==> Favourite(l.tracks, disk, canonical, release.value))
  {
    var row, own := l.albums[Find(l.albums, canonical)], Members(l.tracks, canonical);
    var st, disk := StageOf(l, canonical, source, env), ClearedDisk(l, canonical, source, env);
    var ids := ReleaseIds(st.tracks, disk, own, |st.tracks|);
    if row.release.None? {
      forall id ensures Carriers(l.tracks, disk, canonical, id)
                        == CarriersBefore(st.tracks, disk, own, id, |st.tracks|)
      {
        OwnCarriers(l, canonical, source, env, id);
      }
      if ids == [] {
        forall id ensures CarriersBefore(st.tracks, disk, own, id, |st.tracks|) == {} {
          ReadAsOften(st.tracks, disk, own, |st.tracks|, id);
        }
      } else {
        var w := Leader(ids, |ids|);
        var id := ids[w];
        var i := LeaderFrom(st.tracks, disk, own, ids);
        forall other | other != id
          ensures Outdone(Carriers(l.tracks, disk, canonical, other), Carriers(l.tracks, disk, canonical, id))
        {
          Counts(st.tracks, disk, own, ids, other);
          LeaderOutdoes(st.tracks, disk, own, ids, w, i, other, Carriers(l.tracks, disk, canonical, id),
                        Carriers(l.tracks, disk, canonical, other));
        }
      }
    }
  }

  lemma FindCons(a: AlbumRow, rest: seq<AlbumRow>, id: AlbumId)
    ensures Find([a] + rest, id) == if a.id == id then 0 else 1 + Find(rest, id)
  {
    assert ([a] + rest)[1..] == rest;
  }

  /** The first row with an id is `a`. */
  ghost predicate Leads(albums: seq<AlbumRow>, id: AlbumId, a: AlbumRow) {
    Find(albums, id) < |albums| && albums[Find(albums, id)] == a
  }

  lemma LeadsCons(a: AlbumRow, rest: seq<AlbumRow>, id: AlbumId, b: AlbumRow)
    ensures Leads([a] + rest, id, b) <==> if a.id == id then a == b else Leads(rest, id, b)
  {
    FindCons(a, rest, id);
  }

  lemma {:induction false} FindKept(albums: seq<AlbumRow>, gone: AlbumId, id: AlbumId, b: AlbumRow)
    requires id != gone && Leads(albums, id, b)
    ensures Leads(Without(albums, gone), id, b)
  {
    var a, rest := albums[0], albums[1..];
    assert albums == [a] + rest;
    LeadsCons(a, rest, id, b);
    if a.id != id { FindKept(rest, gone, id, b); }
    LeadsCons(a, Without(rest, gone), id, b);
  }

  /** The merge's release id is stored on the canonical row. */
  lemma RowGetsRelease(l: Lib, canonical: AlbumId, source: AlbumId, env: World)
    requires Mergeable(l, canonical, source)
    ensures var row, after := l.albums[Find(l.albums, canonical)], MergedInto(l, canonical, source, env).lib.albums;
            && Find(after, canonical) < |after|
            && after[Find(after, canonical)] == row.(release := MergedRelease(l, canonical, source, env))
  {
    var c, release := Find(l.albums, canonical), MergedRelease(l, canonical, source, env);
    MergedReleaseIs(l, canonical, source, env);
    var filled := l.albums[c := l.albums[c].(release := l.albums[c].release.Or(release))];
    assert filled[c].id == canonical && forall j :: 0 <= j < c ==> filled[j].id != canonical;
    FindKept(filled, source, canonical, filled[c]);
  }

  /** Every file that the merged rows are left with has the canonical album's
      tags; what the album has no value for stays as it was. */
  lemma MergeAlignsTags(l: Lib, canonical: AlbumId, source: AlbumId, env: World, i: nat)
    requires i < |l.tracks| && Mergeable(l, canonical, source) && l.tracks[i].album == Some(source)
    ensures var after, st := MergedInto(l, canonical, source, env).lib, StageOf(l, canonical, source, env);
            var row, release := l.albums[Find(l.albums, canonical)], MergedRelease(l, canonical, source, env);
            && |after.tracks| == |l.tracks| && after.tracks[i].file == st.tracks[i].file
            && after.disk.Keys == st.disk.Keys - TrashOf(l, canonical, source, env).Keys
            && (after.tracks[i].file.Some? && after.tracks[i].file.value in after.disk ==>
                  var a, before := after.disk[after.tracks[i].file.value], st.disk[after.tracks[i].file.value];
                  && a.album == Some(row.title)
                  && a.albumArtist == Some(if row.artist in l.artists then l.artists[row.artist] else "Unknown")
                  && Chosen(a.year, row.year, before.year) && Chosen(a.release, release, before.release))
  {
    var st := StageOf(l, canonical, source, env);
    var p := st.tracks[i].file;
    if p.Some? && p.value in ClearedDisk(l, canonical, source, env) {
      assert FileOf(st.tracks, Members(l.tracks, source), |l.tracks|, p.value);
    }
  }

  /** A file the loop leaves behind was there before, or a source row has it. */
  lemma {:induction false} StagedFileIs(tracks: seq<Member>, disk: Disk, canonical: AlbumId, source: AlbumId,
                                        dir: Path, blocked: set<nat>, n: nat, p: Place)
    requires n <= |tracks|
    ensures var s := Staged(tracks, disk, canonical, source, dir, blocked, n);
            p in s.disk ==>
              || (p in disk && s.disk[p] == disk[p])
              || exists j :: 0 <= j < n && tracks[j].album == Some(source) && s.tracks[j].file == Some(p)
  {
    if n > 0 {
      var s := Staged(tracks, disk, canonical, source, dir, blocked, n - 1);
      var t := Staged(tracks, disk, canonical, source, dir, blocked, n);
      StagedFileIs(tracks, disk, canonical, source, dir, blocked, n - 1, p);
      if p in s.disk && !(p in disk && s.disk[p] == disk[p]) {
        var j :| 0 <= j < n - 1 && tracks[j].album == Some(source) && s.tracks[j].file == Some(p);
        assert t.tracks[j] == s.tracks[j];
      }
    }
  }

  /** A row of another album is as it was; so is its file, unless it was swept
      away, or a merged row shares its path and has had it retagged. */
  lemma MergeLeavesOthers(l: Lib, canonical: AlbumId, source: AlbumId, env: World, i: nat)
    requires i < |l.tracks| && l.tracks[i].album != Some(source) && Mergeable(l, canonical, source)
    ensures var after := MergedInto(l, canonical, source, env).lib;
            && |after.tracks| == |l.tracks| && after.tracks[i] == l.tracks[i]
            && (l.tracks[i].file.Some? && l.tracks[i].file.value in after.disk ==>
                  var p := l.tracks[i].file.value;
                  || (p in l.disk && after.disk[p] == l.disk[p])
                  || exists j :: 0 <= j < |l.tracks| && l.tracks[j].album == Some(source)
                                 && after.tracks[j].file == Some(p))
  {
    var dir, st := HomeDir(l, canonical, env), StageOf(l, canonical, source, env);
    LeavesUnlessFailed(l.tracks, l.disk, canonical, source, dir, env.blocked, |l.tracks|, i);
    if l.tracks[i].file.Some? {
      StagedFileIs(l.tracks, l.disk, canonical, source, dir, env.blocked, |l.tracks|, l.tracks[i].file.value);
    }
  }

  // ---- Inputs on which a merge does harm ----

  function Keep(): AlbumRow {
    AlbumRow(AlbumId("abba", "gold", None), "Gold", None, "abba", None, None)
  }

  function Gone(): AlbumRow {
    AlbumRow(AlbumId("abba", "gold", Some(1992)), "Gold", Some(1992), "abba", None, None)
  }

  function Untagged(id: nat): Audio {
    Audio(id, None, None, None, None)
  }

  /** Two rows of one album, and a single track, in the one to be merged away. */
  function Unmovable(): Lib {
    var src := Place(["old"], "1.flac");
    Lib([Keep(), Gone()], map[], [Member(Some(Gone().id), Some(src))], map[src := Untagged(7)], [])
  }

  /** A failed move leaves a track pointing at a row that is deleted anyway. */
  lemma FailedMoveDangles(env: World)
    requires 0 in env.blocked
    ensures env.home(Keep()) != ["old"] ==>
              var after := MergedInto(Unmovable(), Keep().id, Gone().id, env).lib;
              && |after.tracks| == 1 && after.tracks[0].album == Some(Gone().id)
              && forall a :: a in after.albums ==> a.id != Gone().id
  {
    var l, fallback := Unmovable(), env.home(Keep());
    assert Keep().id != Gone().id && l.albums[0] == Keep() && l.albums[1] == Gone();
    if fallback != ["old"] {
      assert Find(l.albums, Keep().id) == 0 && l.tracks[0].album != Some(Keep().id);
      assert FolderOf(l.tracks, l.disk, Keep().id, fallback) == FolderOf(l.tracks[1..], l.disk, Keep().id, fallback);
      assert FolderOf([], l.disk, Keep().id, fallback) == fallback && l.tracks[1..] == [];
      assert HomeDir(l, Keep().id, env) == fallback;
      DanglingIffFailed(l, Keep().id, Gone().id, env, 0);
      assert TurnIn(l, Keep().id, Gone().id, env, 0).Failed?;
    }
  }

  /** Each album has one track, at the given places. */
  function TwoTracks(kept: Place, merged: Place): Lib {
    Lib([Keep(), Gone()], map[], [Member(Some(Keep().id), Some(kept)), Member(Some(Gone().id), Some(merged))],
        map[kept := Untagged(1), merged := Untagged(2)], [])
  }

  lemma TwoTracksMerge(kept: Place, merged: Place, env: World)
    requires kept != merged
    ensures var l := TwoTracks(kept, merged);
            && Mergeable(l, Keep().id, Gone().id) && Accurate(l.tracks, l.disk)
            && HomeDir(l, Keep().id, env) == kept.dir
            && TurnIn(l, Keep().id, Gone().id, env, 1)
               == TurnOf(l.tracks[1], l.disk, kept.dir, 1 in env.blocked)
            && StageOf(l, Keep().id, Gone().id, env).disk
               == DiskAfter(l.tracks[1], l.disk, kept.dir, TurnIn(l, Keep().id, Gone().id, env, 1))
            && (merged.dir != kept.dir ==> merged.dir in DirsOf(l, Keep().id, Gone().id, env))
  {
    var l := TwoTracks(kept, merged);
    assert Keep().id != Gone().id && l.albums[0] == Keep() && l.albums[1] == Gone();
    assert Find(l.albums, Keep().id) == 0;
    assert HasFile(l.tracks[0], l.disk, Keep().id);
    assert Staged(l.tracks, l.disk, Keep().id, Gone().id, kept.dir, env.blocked, 0).disk == l.disk;
    assert Staged(l.tracks, l.disk, Keep().id, Gone().id, kept.dir, env.blocked, 1).disk == l.disk;
    assert l.tracks[1].file.value.dir == merged.dir;
  }

  /** A file that collides stays where it is; if its name is not one the trash
      step knows, as with .wma, its folder is emptied and its row names nothing. */
  lemma UnknownNameIsTrashed(env: World)
    requires !env.audio("1.wma") && Place(["old"], "1.wma") !in env.stuck
    ensures var l := TwoTracks(Place(["new"], "1.wma"), Place(["old"], "1.wma"));
            var after := MergedInto(l, Keep().id, Gone().id, env).lib;
            && Accurate(l.tracks, l.disk) && !Accurate(after.tracks, after.disk)
            && |after.tracks| == 2 && after.tracks[1] == Member(Some(Keep().id), Some(Place(["old"], "1.wma")))
            && Place(["old"], "1.wma") !in after.disk
  {
    var kept, merged := Place(["new"], "1.wma"), Place(["old"], "1.wma");
    assert ["new"][0] != ["old"][0];
    var l := TwoTracks(kept, merged);
    TwoTracksMerge(kept, merged, env);
    assert TurnIn(l, Keep().id, Gone().id, env, 1).Collision?;
    assert LeftBare(l, Keep().id, Gone().id, env, ["old"]);
    assert ComesFrom(l, Keep().id, Gone().id, env, 1, ["old"]);
    assert Abandons(l, Keep().id, Gone().id, env, 1);
    AbandonedIff(l, Keep().id, Gone().id, env, 1);
    MergeKeepsAccurate(l, Keep().id, Gone().id, env);
    DanglingIffFailed(l, Keep().id, Gone().id, env, 1);
  }

  lemma AllSwept(disk: Disk, dirs: set<Path>, env: World, d: Path)
    requires env.stuck == {} && d in dirs && Bare(disk, env.audio, d) && forall p :: p in disk ==> d <= p.dir
    ensures Trashed(disk, dirs, env) == disk && Cleared(disk, dirs, env) == map[]
  {
  }

  /** A loose file in the artist's folder: once it has moved to the album, the
      folder holds no audio of its own and is emptied, album and all. */
  lemma LooseFileTakesAlbumAlong(env: World)
    requires 1 !in env.blocked && env.stuck == {}
    ensures var l := TwoTracks(Place(["Abba", "Gold"], "1.flac"), Place(["Abba"], "2.flac"));
            var after := MergedInto(l, Keep().id, Gone().id, env).lib;
            && Accurate(l.tracks, l.disk) && after.disk == map[]
            && TrashOf(l, Keep().id, Gone().id, env)
               == map[Place(["Abba", "Gold"], "1.flac") := Untagged(1),
                      Place(["Abba", "Gold"], "2.flac") := Untagged(2)]
  {
    var album, kept, merged := ["Abba", "Gold"], Place(["Abba", "Gold"], "1.flac"), Place(["Abba"], "2.flac");
    var l := TwoTracks(kept, merged);
    assert |album| != |["Abba"]| && "1.flac"[0] != "2.flac"[0] && ["Abba"] <= album;
    TwoTracksMerge(kept, merged, env);
    var disk := StageOf(l, Keep().id, Gone().id, env).disk;
    assert disk == map[kept := Untagged(1), Place(album, "2.flac") := Untagged(2)];
    AllSwept(disk, DirsOf(l, Keep().id, Gone().id, env), env, ["Abba"]);
    assert MergedInto(l, Keep().id, Gone().id, env).lib.disk.Keys == {};
  }

  class Library {
    var albums: seq<AlbumRow>
    var artists: map<string, string>
    var tracks: seq<Member>
    var disk: Disk
    var trash: seq<Disk>

    function Value(): Lib
      reads this
    {
      Lib(albums, artists, tracks, disk, trash)
    }

    /** Moves the source's files and reassigns its tracks, one by one. */
    method MoveTracks(canonical: AlbumId, source: AlbumId, dir: Path, blocked: set<nat>)
      returns (moved: nat, already: nat, collisions: nat)
      requires canonical != source
      modifies this`tracks, this`disk
      ensures Stage(tracks, disk, moved, already, collisions)
              == Staged(old(tracks), old(disk), canonical, source, dir, blocked, |old(tracks)|)
    {
      ghost var tracks0, disk0 := tracks, disk;
      moved, already, collisions := 0, 0, 0;
      var i := 0;
      while i < |tracks|
        invariant i <= |tracks| == |tracks0|
        invariant Stage(tracks, disk, moved, already, collisions)
                  == Staged(tracks0, disk0, canonical, source, dir, blocked, i)
      {
        var t := tracks[i];
        if t.album == Some(source) {
          var there := Some(canonical);
          if t.file.None? {
            tracks := tracks[i := t.(album := there)];
          } else {
            var src, dst := t.file.value, Place(dir, t.file.value.name);
            if src == dst {
              already := already + 1;
              tracks := tracks[i := t.(album := there)];
            } else if src !in disk {
              tracks := tracks[i := Member(there, Some(dst))];
            } else if dst in disk {
              collisions := collisions + 1;
              tracks := tracks[i := t.(album := there)];
            } else if i !in blocked {
              disk := (disk - {src})[dst := disk[src]];
              tracks := tracks[i := Member(there, Some(dst))];
              moved := moved + 1;
            }
          }
        }
        i := i + 1;
      }
    }

    /** Empties those of the folders that hold no recognised audio. */
    method TrashBare(dirs: set<Path>, env: World)
      modifies this`disk, this`trash
      ensures disk == Cleared(old(disk), dirs, env)
      ensures trash == old(trash) + [Trashed(old(disk), dirs, env)]
    {
      ghost var disk0 := disk;
      var todo, batch: Disk := dirs, map[];
      while todo != {}
        invariant todo <= dirs && disk == Cleared(disk0, dirs - todo, env)
        invariant batch == Trashed(disk0, dirs - todo, env) && trash == old(trash)
        decreases todo
      {
        var d :| d in todo;
        ClearOne(disk0, dirs - todo, d, env);
        assert dirs - todo + {d} == dirs - (todo - {d});
        if Bare(disk, env.audio, d) {
          var gone := Under(disk, d, env.stuck);
          disk, batch := disk - gone.Keys, batch + gone;
        }
        todo := todo - {d};
      }
      assert dirs - todo == dirs;
      trash := trash + [batch];
    }

    /** Writes the canonical album's tags into the files of the given rows. */
    method Retag(rows: set<nat>, row: AlbumRow, artist: string, release: Option<string>)
      modifies this`disk
      ensures disk == Retagged(tracks, old(disk), rows, row, artist, release, |tracks|)
    {
      ghost var disk0 := disk;
      var i := 0;
      while i < |tracks|
        invariant i <= |tracks| && disk == Retagged(tracks, disk0, rows, row, artist, release, i)
      {
        RetagStep(tracks, disk0, rows, row, artist, release, i);
        if i in rows && tracks[i].file.Some? && tracks[i].file.value in disk {
          var p := tracks[i].file.value;
          disk := disk[p := Tagged(disk[p], row, artist, release)];
        }
        i := i + 1;
      }
    }

    /** Merges `source` into `canonical`. */
    method MergeAlbums(canonical: AlbumId, source: AlbumId, env: World)
      returns (moved: nat, already: nat, collisions: nat)
      modifies this
      ensures Outcome(Value(), moved, already, collisions) == MergedInto(old(Value()), canonical, source, env)
    {
      var c, s := Find(albums, canonical), Find(albums, source);
      if c == |albums| || s == |albums| || canonical == source { return 0, 0, 0; }
      var row := albums[c];
      var own, from := Members(tracks, canonical), Members(tracks, source);
      var dir := FolderOf(tracks, disk, canonical, env.home(row));
      var dirs := SourceDirs(tracks, source, dir);
      moved, already, collisions := MoveTracks(canonical, source, dir, env.blocked);
      TrashBare(dirs, env);
      var release := ReleaseFor(row, tracks, disk, own);
      Retag(from, row, if row.artist in artists then artists[row.artist] else "Unknown", release);
      FillRelease(c, release);
      albums := Without(albums, source);
    }

    /** Sets the row's release id if it has none. */
    method FillRelease(c: nat, release: Option<string>)
      requires c < |albums|
      modifies this`albums
      ensures albums == old(albums)[c := old(albums)[c].(release := old(albums)[c].release.Or(release))]
    {
      if release.Some? && albums[c].release.None? {
        albums := albums[c := albums[c].(release := release)];
      }
    }
  }
}
