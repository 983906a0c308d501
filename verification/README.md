# Audioreap, verified

Audioreap keeps a music library in three places that can drift apart: database
rows, audio files on disk and Redis keys. This project models the protocols that
hold them together and proves what every run of them keeps.

- `RateGate`, `GateLimits` – the adaptive download gate: three expiring Redis keys
  and the three atomic Lua scripts over them; how far ahead it may be booked.
- `JobLifecycle`, `JobProtocol`, `JobStories` – one acquisition job: the row as the workers update
  it, and the whole protocol (Phase 1 workers, approvals, retry tails, stuck-job
  recovery, crashes between any two steps) as a transition system.
- `LibraryIndex`, `IndexedRows`, `LibraryScanner`, `ScanStory` – the index rows and their upserts;
  the batched scan and its cascade; three scans that end badly.
- `AlbumCohesion`, `PlacedTracks`, `CohesionRuns`, `TitleRuns` – one approval (anchor to an existing
  album, tag, place, index, retag siblings), what it does to files and rows, and what runs of
  approvals keep.
- `TreeMerge`, `ArtistFolders`, `MoveArtist`, `Placement` – merging folder trees without overwriting,
  moving an artist between the shared and the private library, and choosing the
  library for a track.
- `AlbumMerge`, `AutoHeal` – merging split albums.
- `Similarity`, `MatchRanking`, `SlotMatching` – scoring and accepting a MusicBrainz
  recording; pairing local tracks with tracklist slots.
- `LrcText`, `LrcShift` – shifting the timestamps of lyrics.
- `Prelude`, `StableSort` – optional values, and Python's stable sort.

Code that works step by step is a class or a method with loops. Its contract
equates the new state with a function of the old one, and the lemmas are about
that function; the methods' rows below are that connection. Each database
transaction, Lua script and rename is one atomic step. Seconds and scores are
exact reals; lyrics times count in units of a stamp's last digit. `normalize`,
the grouping form of album titles, file name stems and sanitising, tokenising, the known audio
suffixes and which file operations fail are parameters of the model, and the hash
keys are the normalised tuples they hash.

Where the code does less than its comments promise, the exact condition is proved,
with an input that shows the failure:

- An album row without a year does not anchor a track that has one: a second row
  for the same release group appears (`CohesionRuns.LandsInCanonicalIff`,
  `CohesionRuns.YearlessRowFragments`), and with it a second dated row of the title
  (`TitleRuns.OneDatedKeptIff`, `TitleRuns.YearlessRowSplitsTitle`).
- Approving a track as a single does not clear an album tag the download brought
  (`CohesionRuns.SingleStaysOutIff`); such a single can hand the release group of one
  album to another (`CohesionRuns.CanonicalKeptIff`, `TitleRuns.LeftOverTagTakesGroup`).
- After an approval an album's files agree on their release id only if the row has
  one, or the download brought one and the approval a group, or every file already
  carried what the download carries (`CohesionRuns.ApprovalUnifiesIff`,
  `TitleRuns.DownloadIdSplitsAlbum`).
- The scan's cascade can delete an artist that a surviving album still names
  (`LibraryScanner.SweepKeepsAlbumArtistsIff`, `ScanStory.SweptArtistStillNamed`).
- A row in placement is fetched again if anything queued or working can still reach
  it, since a worker's state writes are unconditional
  (`JobProtocol.PlacingFetchedAgainIff`, `JobProtocol.SecondEntryRedownloads`).
- An artist move that fails part-way rolls back the rows but not the files: rows of
  files that had moved name paths that are gone (`MoveArtist.ArtistMover.Move`,
  `MoveArtist.FailedMoveGoesStale`).
- The query for the rows below a moved folder ignores ASCII case: a row under a
  case variant of it makes the move fail after the files have crossed, and the
  index goes stale (`MoveArtist.GoesThroughIff`, `MoveArtist.NamesakeGoesStale`).
- Moving an artist whose folder is that of all compilations, or of all singles, into
  the private library takes compilations along (`Placement.CompilationsSharedIff`,
  `Placement.CompilationsFolderStraddles`).
- An album merge empties every source folder that is left without a file of known
  audio suffix, subfolders and all. A colliding or unmovable .wma goes with it, and
  a loose file in the artist's folder takes the artist's albums along
  (`AlbumMerge.MergeKeepsAccurate`, `AutoHeal.HealKeepsAudio`,
  `AlbumMerge.UnknownNameIsTrashed`, `AlbumMerge.LooseFileTakesAlbumAlong`).
- A track whose file could not be moved during an album merge is left pointing at a
  deleted row (`AlbumMerge.DanglingIffFailed`, `AutoHeal.HealReassigns`,
  `AlbumMerge.FailedMoveDangles`).
- Two spellings of one artist make an artist move split an album, and an approval
  under a compilation spelling splits a private one (`Placement.MoveKeepsWholeIff`,
  `Placement.TwoSpellingsStraddle`, `Placement.ApproveKeepsWholeIff`,
  `Placement.CompilationSpellingStraddles`).
- A slot booked past the key lifetime is forgotten, from 77 slots ahead at the
  defaults (`GateLimits.SpacedIff`, `GateLimits.DefaultsBreakAt77`).
- A stamp shifted to a thousand minutes or more prints four digits of minutes and is
  no stamp to the next shift (`LrcShift.ShiftKeepsText`, `LrcShift.LastStampIsLost`).
- The documented cap of 0.9 for disagreeing durations (service/search/matcher.py:121)
  is 0.84 in the code; the model follows the code.

## Model

| member | source | states |
|---|---|---|
| RateGate.YtdlpRateGate.Reserve | service/acquisition/ratelimit.py:38-56 | the slot handed out is the latest of now, the booked time and the cooldown end, as the unexpired keys have them; the pause flag says the cooldown is not over; only the next-slot key changes |
| RateGate.YtdlpRateGate.Penalize | service/acquisition/ratelimit.py:59-77 | after a 429 the three keys are those of the back-off: interval grown up to the cap, cooldown armed, booked time raised to its end but never lowered |
| RateGate.YtdlpRateGate.Reward | service/acquisition/ratelimit.py:80-90 | a success eases a live interval towards the minimum and never below it, and does nothing when the key has lapsed |
| RateGate.IntervalWithinBounds | service/acquisition/ratelimit.py:66-70 | over every run the interval in force stays between minimum and maximum, whatever expires |
| RateGate.RewardsEase | service/acquisition/ratelimit.py:80-90 | after any run, k successes without a 429 in between bring the interval to at most maximum times 0.9^k, or to the minimum |
| RateGate.EnoughRewardsRestoreMinimum | service/acquisition/ratelimit.py:84-88 | 9 (max - min) / min consecutive successes restore the minimum exactly, from any state |
| RateGate.DefaultsRecoverIn21 | service/config.py:91-92 | at the defaults 21 successes undo any back-off |
| RateGate.EasesExactly | service/acquisition/ratelimit.py:80-90 | and no faster: while the key lives, k successes without a 429 bring an interval i to exactly max(minimum, i * 0.9^k) |
| RateGate.DefaultsNeed21 | service/config.py:91-92 | at the defaults, from the cap, the minimum is restored exactly from the 21st success on |
| RateGate.KeyLivesAnHour | service/acquisition/ratelimit.py:68-89 | a 429, and a success while the interval's key lives, keeps it for an hour; a reservation leaves it alone |
| RateGate.CooldownIsHonoured | service/acquisition/ratelimit.py:71-75 | no reservation made after a 429 starts before that 429's cooldown ends, whatever happened since |
| RateGate.WaitIsBounded | service/acquisition/ratelimit.py:43-54 | over any run a reservation made while n earlier slots are ahead waits at most max(cooldown, maximum) + n times the maximum interval |
| RateGate.ExpiryHarmlessIff | service/acquisition/ratelimit.py:54 | forgetting a booked time at key expiry never shows exactly when the time lies within the key lifetime |
| RateGate.ExpiryInvisible | service/acquisition/ratelimit.py:34-56 | if every booked slot ends within the lifetime, the gate with expiring keys hands out the same starts as one whose keys never expire |
| RateGate.SlotsAreSpaced | service/acquisition/ratelimit.py:47-54 | over any run with at most n slots ahead, n fitting the lifetime, any two slots are at least the earlier one's interval apart, hence at least the minimum |
| GateLimits.SpacedIff | service/acquisition/ratelimit.py:34-56 | all runs with at most n slots ahead are spaced exactly when a booking n slots out fits the key lifetime; beyond it a few 429s and a burst break the spacing |
| GateLimits.DefaultsSpacedIff | service/config.py:91-93 | with the default settings the limit is exactly 76 slots ahead |
| GateLimits.DefaultsBreakAt77 | service/config.py:91-93 | at the defaults: six 429s, 78 reservations at once and one an hour later, which starts too early |
| JobLifecycle.AcquisitionJob.RetryTail | service/acquisition/jobs.py:722-754 | a transient failure with budget left goes back on the queue with one retry more and the delay of that retry; any other row is untouched |
| JobLifecycle.AcquisitionJob.Recover | service/worker.py:63-105 | a stuck row in placement goes to review if its staged file exists and is failed for good otherwise; any other is requeued if it has budget and a candidate, else failed as transient |
| JobLifecycle.RecoverStuckJobs | service/worker.py:26-105 | a pass changes exactly the rows queued, downloading, processing, tagging, importing or placing that were last touched more than 15 minutes ago, and those waiting for more than 3; before placement they go back on the queue with the delay of that retry (30, 120 or 600 s) while they have budget and a candidate and fail as transient otherwise; in placement they go to review if the file is staged and fail for good otherwise; nothing else is requeued |
| JobProtocol.RetryBudgetHolds | service/acquisition/jobs.py:727-735 | over every run each enqueue but the first was paid for by a retry, and the retry count never decreases |
| JobProtocol.EnqueuedAtMostFourTimes | service/acquisition/jobs.py:556-557 | for every interleaving of workers, tails, recoveries, failed enqueues, crashes, approvals and cancellations, a job is enqueued at most 1 + _MAX_RETRIES times |
| JobProtocol.DyingJobSettles | service/worker.py:90-105 | a job whose workers keep dying is found stuck at most 2 * _MAX_RETRIES + 2 times, plus once per approval and once per queue entry handed out again after a death |
| JobProtocol.PlacingAudioIsNeverLost | service/acquisition/pipeline.py:1618-1643 | in every reachable state a row in placement has its audio at the staged path or in the library; the next recovery returns it to review exactly when the staged file is still there and otherwise fails it for good |
| JobProtocol.Phase2IsFinal | service/worker.py:67-88 | once nothing is queued or working and the row is in review, placed, cancelled or failed for good, no step of any run enqueues or downloads it |
| JobProtocol.PlacedJobIsNeverRedownloaded | service/worker.py:67-88 | hence once placed, never queued or downloaded again, whatever happens later; a queue entry that a death gave back counts as an owner |
| JobProtocol.SecondEntryRedownloads | service/acquisition/pipeline.py:75-97 | a queue entry left over for a row being placed downloads it |
| JobProtocol.PlacingFetchedAgainIff | service/acquisition/pipeline.py:75-97 | while no interrupted entry is handed out again, some run enqueues or downloads a row in placement exactly when an entry or an enqueue is pending, a worker has not begun its download, or one is midway with retries left |
| JobProtocol.PlacingFetchedAgainWithRedeliveryIff | service/worker.py:326-345 | with redelivery, exactly when anything at all is queued, being enqueued or working |
| JobStories.GetsPlaced | service/acquisition/pipeline.py:1128-1290 | from any new job some run ends with the row done, one download, the audio at its destination and nowhere else, and nothing queued or at work; a taken destination keeps its file, and the staged one stays |
| JobStories.FourTimesIsReached | service/acquisition/jobs.py:722-754 | the bound on enqueues is met: a job that keeps failing for now is enqueued and downloaded four times and then given up |
| JobStories.DeathIsRecovered | service/worker.py:90-105 | a job whose worker died in the download is queued again with a retry less if it has its candidate, and fails for now otherwise |
| JobStories.FailedApprovalReturns | service/acquisition/pipeline.py:1593-1643 | an approval that fails puts the row back in review with its file staged |
| JobStories.SecondApprovalReturns | service/acquisition/pipeline.py:1618-1643 | of two approvals of one row the second to rename finds the staged file gone and puts the row back |
| JobStories.DeadApprovalIsRecovered | service/worker.py:63-88 | an approval that dies before renaming is returned to review by recovery, once |
| JobStories.CancelledInQueue | service/api/routes/jobs.py:816-870 | a job cancelled before it is picked up is never downloaded, whether its entry left the queue or not |
| JobStories.CancelledWhileFetching | service/acquisition/pipeline.py:1138-1230 | a job cancelled during its download stays cancelled and goes no further |
| LibraryIndex.Index.UpsertArtist | service/index/scanner.py:78-122 | get or create by normalised name; sort name and MusicBrainz id are only filled in |
| LibraryIndex.Index.UpsertAlbum | service/index/scanner.py:125-172 | get or create by the content key; ids are only filled in |
| LibraryIndex.Index.DropStaleFiles | service/index/scanner.py:175-192 | removes exactly the track's other rows whose file is gone |
| LibraryIndex.Index.UpsertTrackFile | service/index/scanner.py:195-240 | an existing row keeps its track and is rewritten only on a changed mtime; a new one drops the track's stale rows |
| LibraryIndex.Index.UpsertTrack | service/index/scanner.py:342-387 | a new track takes its columns from the tags; an existing one keeps title, artist and a recording id it has |
| LibraryIndex.Index.ProcessFile | service/index/scanner.py:266-394 | rows, status and track id after one file, for missing, unchanged, unreadable, tombstoned and indexed files |
| LibraryIndex.ProcessedKeepsRefs | service/index/scanner.py:318-394 | processing any file keeps file→track, track→album and track→artist references valid |
| LibraryIndex.BarredIsSkipped | service/index/scanner.py:302-312 | a file whose recording has a tombstone that prevents re-import is skipped and changes no row; only when up to date is its track reported |
| LibraryIndex.NewFileGetsInIff | service/index/scanner.py:266-394 | a file without a row gets one exactly if it is there, readable and not barred; it counts as added or updated as its track is new or not |
| LibraryIndex.KnownFileIsReadIff | service/index/scanner.py:285-394 | a row keeps its track and takes the file's time; an unchanged file's row stays and it is skipped, a changed one is added or updated |
| IndexedRows.ArtistRowIs | service/index/scanner.py:78-122 | the artist row of an indexed file: filed under album artist, else artist, else Unknown Artist; the first name stays, sort name and id are filled in; no other row changes |
| IndexedRows.AlbumRowIs | service/index/scanner.py:125-172 | without an album tag the rows stay; else the first row of the key has its release id filled in, or a new row stands last; a year of 0 is none in the key |
| IndexedRows.TrackRowIs | service/index/scanner.py:314-382 | a new track takes the tags, its title else the file name's stem; an existing one keeps title, artist, length and a recording id it has, and takes album, credit, numbers and a genre; no other row changes |
| IndexedRows.FileRowsAre | service/index/scanner.py:175-240 | a known file keeps its track and is rewritten on a changed time; a new one displaces exactly the rows of its track whose files are gone |
| IndexedRows.StatusIs | service/index/scanner.py:276-394 | a missing file is an error, and so is an unreadable one unless it is up to date; a readable one is skipped exactly when unchanged |
| LibraryIndex.SameTrackIff | service/core/identity.py:9-25 | two recordings are one track exactly if artist and title agree in normal form and their lengths are equal, both unknown, or within a second of the same multiple of four |
| LibraryScanner.WalkInBatches | service/index/scanner.py:421-448 | for any batch size the batched walk is processing each file once, in order |
| LibraryScanner.Cascade | service/index/scanner.py:450-478 | removes tracks without a file and, only if there were any, albums and artists without a track |
| LibraryScanner.Scan | service/index/scanner.py:402-478 | the whole scan is that walk and, on a full scan, the sweep of unseen files with its cascade |
| LibraryScanner.EveryFileIsCounted | service/index/scanner.py:421-433 | added + updated + skipped + errors is the number of files; removed is the number of rows not seen |
| LibraryScanner.ScanKeepsRefs | service/index/scanner.py:402-478 | every scan, full or incremental, keeps file→track, track→album and track→artist references valid |
| LibraryScanner.ScanBringsInIff | service/index/scanner.py:302-312 | a scan of either kind brings in exactly the files walked that are readable and not barred: what was deleted for good does not come back |
| LibraryScanner.FullScanLeavesNoGhosts | service/index/scanner.py:450-465 | after a full scan every file row was seen on disk, no seen row was lost, and the tracks are exactly those with a file row |
| LibraryScanner.SecondScanIsFixpoint | service/index/scanner.py:285-312 | after any scan an incremental scan of an unchanged disk changes no row and adds, updates and removes nothing |
| LibraryScanner.SweepKeepsAlbumArtistsIff | service/index/scanner.py:466-477 | album→artist references survive the sweep exactly when nothing was orphaned or every surviving album's artist still has a track |
| ScanStory.SweptArtistStillNamed | service/index/scanner.py:364-477 | from an empty index a scan, a scan after a retag and a full scan after a deletion leave an album naming a deleted artist |
| AlbumCohesion.ByGroup | service/library/cohesion.py:121-141 | finds the oldest album of a release group whose artist row exists |
| AlbumCohesion.FirstSameTitle | service/library/cohesion.py:143-166 | finds the oldest album of the artist with the same grouping title, dated or undated |
| AlbumCohesion.LibraryService.RetagSiblings | service/acquisition/pipeline.py:1422-1463 | exactly the readable sibling files with another release id are rewritten, and only in that tag |
| AlbumCohesion.LibraryService.BackfillIds | service/acquisition/pipeline.py:1519-1559 | recording and genre are stored on the track; artist, group and release ids are filled in where missing |
| AlbumCohesion.LibraryService.PlaceApprovedTrack | service/acquisition/pipeline.py:1593-1830 | database and disk after an approval, through anchoring, tagging, placing, indexing, backfill and sibling retag |
| PlacedTracks.PlacedTagsAre | service/acquisition/pipeline.py:1693-1723 | exactly one file is new, at the layout's path for the settled album; it has the reviewed title, artist, numbers, genre, sort name and ids, or the download's where the review gave none, and the settled album artist, album, year and release id |
| PlacedTracks.PlacedRowsAre | service/index/scanner.py:342-394 | exactly one track row and one file row are new: the row has the reviewed title, credit and numbers, its key is normal artist, normal title and length bucket, it is filed under the album artist, and the file row names it |
| PlacedTracks.SettledIs | service/library/cohesion.py:96-170 | the anchor is the oldest row of the release group under its artist's name; failing that the artist's oldest row of the grouping title, dated before undated, under the name known for the artist's MusicBrainz id; failing that the review itself |
| PlacedTracks.OthersKeepTheirs | service/acquisition/pipeline.py:1422-1463 | any approval leaves every other file as it was or replaces its release id by another one, loses none, and lifts exactly the approved recording's tombstone |
| PlacedTracks.BackfillIs | service/acquisition/pipeline.py:1519-1559 | on the track's row reviewed recording and genre win; on its artist's and album's rows ids that are there win; no other row changes |
| PlacedTracks.NotIndexed | service/acquisition/pipeline.py:1466-1516 | a placed file that cannot be indexed leaves all file rows as they are, and of the tracks only the one the review names may be filled in |
| CohesionRuns.LandsInCanonicalIff | service/acquisition/pipeline.py:1333-1339 | a track of a known release group is filed in the group's oldest row exactly when that row has a year or the track brings none |
| CohesionRuns.YearlessRowFragments | service/acquisition/pipeline.py:1337-1338 | otherwise a second row comes to carry the group and takes the track |
| CohesionRuns.SingleStaysOutIff | service/acquisition/pipeline.py:1703-1723 | approved without an album, a track joins none exactly when the download had no album tag |
| CohesionRuns.AlbumsDoNotFragment | service/library/cohesion.py:121-141 | over any run of approvals of new tracks, the group's dated oldest row stays its oldest with the same columns, its ids once set never change, and at the end every track of the run resolved to the group is in that row under its title, year and artist |
| CohesionRuns.CanonicalKeptIff | service/acquisition/pipeline.py:1545-1557 | an approval leaves the group's dated oldest row its oldest exactly when no single with a left-over album tag takes the group to an older one |
| TitleRuns.LeftOverTagTakesGroup | service/acquisition/pipeline.py:1545-1557 | a concrete such single |
| TitleRuns.OneDatedKeptIff | service/library/cohesion.py:142-166 | an approval gives an artist a second dated row of one grouping title exactly when a yearless row anchors it by group, or a single keeps a left-over album tag, and the key is new |
| TitleRuns.YearlessRowSplitsTitle | service/acquisition/pipeline.py:1337-1338 | a concrete library and approval in which the yearless row does so |
| TitleRuns.TitlesDoNotFragment | service/library/cohesion.py:142-166 | over any run whose groups come with a year and whose album tags come from review, an artist keeps at most one dated row per grouping title, and every track no group speaks for ends in the dated row it matched |
| CohesionRuns.FirstApprovalAnchors | service/acquisition/pipeline.py:1545-1557 | the first approval of a dated album into an empty library makes its row such an anchor |
| CohesionRuns.ApprovalUnifiesIff | service/acquisition/pipeline.py:1545-1557 | in any library and for any download, after a track joins a dated album its files agree on the release id exactly when the row has one, or the download brought one and the approval a group, or every file already carried what the download carries, or like it none |
| CohesionRuns.ReleasesNeverChange | service/acquisition/pipeline.py:1545-1557 | approving an untagged download changes no row's release id, present or absent |
| CohesionRuns.OneReleaseIdPerAlbum | service/acquisition/pipeline.py:1669-1683 | over any run of untagged downloads every file of every album carries exactly its row's release id, none included |
| TreeMerge.FileSystem.RenameTree | service/library/visibility.py:197-200 | a free destination takes the whole tree, counted, unless a file stands above it |
| TreeMerge.FileSystem.MergeTree | service/library/visibility.py:194-218 | it succeeds exactly when no non-empty source folder meets a file; then exactly the files with a free mirrored place are there, all others stay, nothing is overwritten or lost, moved and collisions count them, and only folders still holding a file remain in the source |
| MoveArtist.ArtistMover.Repoint | service/library/visibility.py:258-267 | it gets through exactly when no row lies under a case variant of the moved folder; then exactly the rows under the folder whose file is now only at the mirrored path are rewritten, and counted |
| MoveArtist.ArtistMover.PruneParents | service/library/visibility.py:269-272 | removes only empty folders strictly between the root and the moved folder, and leaves none of them empty |
| ArtistFolders.RepointedIs | service/library/visibility.py:258-267 | a row is rewritten exactly if it lies under the folder, its own path is gone and the mirrored one is there; a row whose file is in neither place stays |
| ArtistFolders.AbsentFolderLeavesRows | service/library/visibility.py:252-253 | a folder that is not there leaves its rows alone, so moving again does not mend a stale index |
| MoveArtist.ArtistMover.Move | service/library/visibility.py:221-278 | it goes through exactly when neither folder clashes at the outset and no row, in its folder's turn, lies under a case variant of a folder that is there; then exactly the files with a free place crossed, the rows are rewritten folder by folder and counted, whether the index was true or not, and rows elsewhere are unchanged; if every indexed path existed and was unique it still does, every row names the same file and only the crossed paths are rewritten; if it fails, the rows are as before and the index is true exactly when none of its files had crossed; audio is conserved in every case |
| MoveArtist.GoesThroughIff | service/library/visibility.py:245-267 | unless artist, private folder and the folder of singles are case variants of each other, all of that condition can be read off before the move |
| MoveArtist.NamesakeGoesStale | service/library/visibility.py:258-264 | with two artists whose names differ in case only, moving the one fails and leaves its row naming a path that is gone |
| MoveArtist.FailedMoveGoesStale | service/library/visibility.py:251-267 | a concrete library on which the move fails after the first folder and leaves a row naming a path that is gone |
| Placement.MoveKeepsWholeIff | service/library/visibility.py:246-273 | an artist move keeps every album in one library exactly when no album being left has files in and outside the moved folders |
| Placement.ApproveKeepsWholeIff | service/library/visibility.py:159-170 | an approval does exactly when it is a single, or the lookup decides, or the decision made instead (feature off, compilation artist) is where the album already is |
| Placement.Precedence | service/library/visibility.py:143-170 | nothing is private with the feature off, nor a compilation; else an album on disk draws its tracks to a library it is in; only otherwise does the user's choice count, and without one the artist's folder |
| Placement.AlbumsNeverStraddle | service/library/visibility.py:143-170 | over any run of approvals, moves of any artist and lost files with one spelling per artist, compilations are shared all along exactly when no move takes one into the private library, and then no album is in both libraries |
| Placement.CompilationsSharedIff | service/library/visibility.py:246-273 | shared compilations stay so under a move exactly when it is to the shared library or takes no compilation artist's file along |
| Placement.CompilationsFolderStraddles | service/api/routes/artists.py:165 | an artist called Compilations may be moved; it takes the compilations along, and the next approval splits one |
| Placement.TwoSpellingsStraddle | service/library/visibility.py:246-266 | with any two spellings of one artist that name two folders an artist move splits an album |
| Placement.FoldersMoveIsMovedAll | service/library/layout.py:26-72 | on paths: moving the two folders without collision rewrites each row to where the layout puts its file in the new library |
| Placement.PathTellsLibrary | service/library/visibility.py:80-88 | a file's path tells its library |
| AlbumMerge.Library.MoveTracks | service/library/cohesion.py:291-316 | rows, disk and counters after the moving loop, case by case |
| AlbumMerge.Library.Retag | service/library/cohesion.py:329-344 | exactly the existing files of the source's rows get the canonical tags |
| AlbumMerge.Library.TrashBare | service/library/writer.py:56-76 | those of the folders that hold no file of known audio suffix themselves are emptied, with all below them, in whatever order they come; what cannot be taken away stays |
| AlbumMerge.Library.MergeAlbums | service/library/cohesion.py:216-359 | the whole library and what was handed to the trash after one merge, through moving, emptying, tagging and deleting; nothing when either row is missing or both are one |
| AlbumMerge.Leader | service/library/cohesion.py:43-53 | the majority release id: most frequent, first seen among equals |
| AlbumMerge.FolderIsInUse | service/library/cohesion.py:261-279 | the target folder is that of the first of the canonical album's files that is on disk, and the layout's exactly if there is none |
| AlbumMerge.LeavesUnlessFailed | service/library/cohesion.py:291-316 | a row joins the canonical album exactly when its move did not fail; its path is the one in the target folder exactly when it neither failed nor collided |
| AlbumMerge.RowGoes | service/library/cohesion.py:291-316 | by what is on disk at its turn: a row stays behind only if its move fails, its path only if it is there already, the place is taken or the move fails; a path whose file is gone is rewritten unseen |
| AlbumMerge.CountersAddUp | service/library/cohesion.py:283-314 | moved + already there + collisions is the number of the source's files that did not fail |
| AlbumMerge.CountersAre | service/library/cohesion.py:283-314 | whatever the index says, the three counters are the numbers of files there already, of files whose place was taken, and of files that moved |
| AlbumMerge.MergeLosesNothing | service/library/cohesion.py:291-322 | whatever the index says, after a merge every file is still in the library or was handed to the trash, and as many as before: none is overwritten |
| AlbumMerge.MergeKeepsAccurate | service/library/cohesion.py:216-359 | if all indexed paths existed and were unique, a row still names its own audio exactly unless its file is left in or below a source folder whose audio of known suffix all moves out; so paths go on existing and being unique exactly when there is no such row, of whatever album |
| AlbumMerge.TidyAbandonsNone | service/library/cohesion.py:283-322 | there is none if every file has a known audio suffix and no folder in use lies below another |
| AlbumMerge.UnknownNameIsTrashed | service/library/writer.py:12-76 | a concrete .wma that collides, is trashed and leaves its row naming nothing |
| AlbumMerge.LooseFileTakesAlbumAlong | service/library/cohesion.py:283-322 | a concrete loose file after whose merge the whole library is in the trash |
| AlbumMerge.DanglingIffFailed | service/library/cohesion.py:310-316 | after the source row is deleted exactly the rows whose move failed still refer to it |
| AlbumMerge.MergeAlignsTags | service/library/cohesion.py:325-345 | every file the merged rows are left with carries the canonical title and artist, the canonical year if there is one, and the merge's release id if there is one; what the album has no value for stays |
| AlbumMerge.MergedReleaseIs | service/library/cohesion.py:29-53 | the merge's release id is the canonical row's, or else the one that most rows of the album before the merge carry in a file that is left, among equals the one carried first, and none exactly if none carries one |
| AlbumMerge.RowGetsRelease | service/library/cohesion.py:347-348 | the canonical row ends with that release id and is otherwise unchanged |
| AlbumMerge.NothingToMerge | service/library/cohesion.py:258-259 | nothing happens when either row is missing or both are one |
| AlbumMerge.SourceRowGoes | service/library/cohesion.py:349-353 | otherwise the source's row goes and no other |
| AlbumMerge.FailedMoveDangles | service/library/cohesion.py:315-353 | a concrete failed move that leaves a dangling row |
| AutoHeal.AutoHeal | service/library/cohesion.py:520-578 | the library and what was handed to the trash after healing, and the number of merges that moved, found or collided something |
| AutoHeal.CanonicalIsBest | service/library/cohesion.py:562-564 | the surviving row has a release id if any match has one and then the most tracks |
| AutoHeal.HealLeavesOneRow | service/library/cohesion.py:546-571 | exactly one row is left for the normalised title and artist, every other row is as it was |
| AutoHeal.HealUnites | service/library/cohesion.py:546-571 | two rows left whose artist is there and whose normal title and artist are those asked for are one |
| AutoHeal.HealLeavesRest | service/library/cohesion.py:546-571 | any other row is there afterwards exactly if it was before |
| AutoHeal.HealIdle | service/library/cohesion.py:537-560 | without a title, an artist, or two rows for them nothing changes and 0 is returned |
| AutoHeal.MergedCounts | service/library/cohesion.py:566-571 | the number returned is that of the merges that moved, found in place or ran into some file |
| AutoHeal.HealReassigns | service/library/cohesion.py:566-571 | it owns every track of all matching rows but those whose move failed; no track refers to a deleted row exactly when no attempted move failed |
| AutoHeal.HealKeepsAudio | service/library/cohesion.py:283-322 | no file leaves the library but to the trash, none is overwritten; an accurate index is accurate after every merge exactly when no merge abandons a row, and then every row names its own audio at the end, whatever else fails |
| AutoHeal.TidyHealKeepsAccurate | service/library/cohesion.py:283-322 | so it is if at the outset every file has a known audio suffix and no folder in use lies below another |
| AutoHeal.HealAlignsTags | service/library/cohesion.py:325-345 | whatever goes wrong, the file that any row taken over is left with ends with the survivor's title and artist |
| StableSort.SortIsStable | service/library/cohesion.py:563 | the sort used for ranking permutes, orders and keeps ties in their original order |
| Similarity.Jaccard | service/search/matcher.py:24-32 | in the unit interval; 1 exactly for equal word sets, 0 exactly for disjoint ones not both empty |
| Similarity.TrackSimilarityIs | service/search/matcher.py:110-136 | half the title's and 0.4 of the artist's similarity, 0.1 more for lengths within 10 s, 0.05 where one is missing or 0, and a cap of 0.84 beyond |
| Similarity.ConfidentIsSymmetric | service/search/matcher.py:139-148 | matching is symmetric |
| Similarity.FarApartIsNoMatch | service/search/matcher.py:126-132 | no match when both durations are known and more than 10 s apart, at any threshold above 0.84 |
| Similarity.FarApartBoundIff | service/search/matcher.py:126-136 | 0.84 is the exact bound: at it and below, namesakes of different length match |
| Similarity.ConfidentNeedsBoth | service/search/matcher.py:110-148 | a match needs title similarity 0.7 and artist similarity 0.625, more when a duration is unknown |
| Similarity.SameNamesMatchIff | service/search/matcher.py:110-148 | equal names match exactly unless the durations are far apart |
| MatchRanking.CandidatePool | service/metadata/musicbrainz.py:571-592 | the pool is the recordings that reach the floor, with the release-group boost, best first |
| MatchRanking.PoolIs | service/metadata/musicbrainz.py:571-592 | it is in descending order and holds exactly the records with a score of at least 0.40, each as often as it was found |
| MatchRanking.FullPoolIs | service/acquisition/pipeline.py:640-684 | the recording behind the fingerprint joins, last and unfavoured, exactly if it was looked up and its id is not in the pool |
| MatchRanking.RankCandidates | service/metadata/candidates.py:50-95 | the ranking is every candidate's combined score, best first, ties in pool order |
| MatchRanking.ScoreIs | service/metadata/candidates.py:57-95 | the score is the text score, a tenth of the query's similarity, 0.15 for a fingerprint hit, less 0.25 for an artist less than 0.34 alike unless unknown on either side or hit; empty texts count as none |
| MatchRanking.Identify | service/acquisition/pipeline.py:586-707 | the winner is the top of the ranking if it reaches the threshold; the fingerprint was essential if it rescued a lower text score |
| MatchRanking.AcceptedIff | service/acquisition/pipeline.py:684-688 | no candidate beats the top, and something is accepted exactly when some candidate reaches 0.85 |
| MatchRanking.WinnerHasRightArtist | service/metadata/candidates.py:66-94 | accepted without a fingerprint hit, a recording has artist similarity at least 0.34 and title similarity at least 0.3, whatever the boosts and even when the gate is off for an empty name |
| MatchRanking.FingerprintIsNotEnough | service/metadata/candidates.py:83-88 | an accepted recording has text score at least 0.6, and 0.75 without a fingerprint hit |
| MatchRanking.FingerprintAcceptsIff | service/metadata/candidates.py:78-88 | a fingerprint hit is exempt from the gate and accepted exactly when text and query make 0.70 |
| MatchRanking.GateIsNeeded | service/metadata/candidates.py:27-34 | without the penalty a recording sharing one artist word in four would be accepted; with it, it is not |
| SlotMatching.MatchById | service/api/routes/albums.py:609-614 | every slot whose recording some track has, the last such slot, goes to the first track that has it, and only such pairs are made |
| SlotMatching.FindBest | service/api/routes/albums.py:619-626 | the first of the most similar free slots, if at least 0.80 |
| SlotMatching.MatchSlots | service/api/routes/albums.py:601-629 | injective both ways; id pairs first; each later pair takes the best slot free at its turn; a track left over has no similar slot except ones taken by id or by an earlier track |
| SlotMatching.NothingMoreToMatch | service/api/routes/albums.py:616-628 | no unmatched track and free slot with similarity at least 0.80 remain |
| SlotMatching.IdComesFirst | service/api/routes/albums.py:609-622 | such a slot is paired by id, with a track that has its recording, and never given away by title |
| SlotMatching.TitlePairsAreAlike | service/api/routes/albums.py:619-626 | a pair made by title has similarity at least 0.80 |
| SlotMatching.TitlePairsDetermined | service/api/routes/albums.py:616-628 | these promises determine the title pairs completely |
| LrcText.SubKeepsText | service/metadata/lyrics.py:211 | putting stamps for stamps leaves all other characters alone and every stamp in its place; none arises elsewhere |
| LrcShift.PrintReadsBack | service/metadata/lyrics.py:207-209 | a printed stamp is recognised and reads back as the same time and precision |
| LrcShift.ShiftKeepsText | service/metadata/lyrics.py:194-211 | for every text and offset nothing outside the stamps changes; the stamps stay stamps, in the same places, exactly when none is shifted to a thousand minutes or more |
| LrcShift.LastStampIsLost | service/metadata/lyrics.py:191-211 | [999:59] shifted by a second prints [1000:00], which is no stamp |
| LrcShift.ShiftIsAccurate | service/metadata/lyrics.py:204-205 | the printed time is within half a unit of the exact shifted time, clamped at zero |
| LrcShift.ShiftKeepsOrder | service/metadata/lyrics.py:204-205 | order among stamps of one precision survives any shift, even clamped |
| LrcShift.ShiftedIsCanonical | service/metadata/lyrics.py:206-209 | shifted stamps print seconds below 60 and minutes without superfluous digits |
| LrcShift.ShiftsComposeIff | service/metadata/lyrics.py:194-211 | shifting twice is shifting by the sum exactly when no stamp is both clamped first and moved later afterwards |
| LrcShift.ThereAndBackIff | service/metadata/lyrics.py:194-211 | shifting there and back without clamping restores the text exactly when all its stamps are canonical |

## Left out

- RateGate.SlotsAreSpaced: spacing is of reservations; a job stops waiting up to a second early, and slots handed out before a 429 are not moved by it.
- RateGate.YtdlpRateGate.Reserve: the fallback to "start now" without Redis, number-to-string rounding in Lua, and a Redis clock differing from the caller's.
- JobProtocol.DyingJobSettles: recoveries that overtake a live worker, manual retry, and the queue's own cap on how often it hands an interrupted entry out again (the bound counts redeliveries instead).
- JobProtocol.PlacingAudioIsNeverLost: assumes staging paths of different jobs are distinct; replacement of a library file and enrichment in place are not steps of the protocol.
- AlbumCohesion.LibraryService.PlaceApprovedTrack: enrichment, source replacement, artwork, lyrics, ReplayGain, provenance columns, quality scores and cover flags; a tag write or placement that raises; of several artist rows with one MusicBrainz id the lookup may return any, and the approval says which.
- AlbumCohesion.LibraryService.RetagSiblings: retags all file rows of a sibling track, where the source visits one per track; leaves a sibling whose tags cannot be read as it is, where the source still tries to write it.
- CohesionRuns.AlbumsDoNotFragment: approvals of new tracks only, and not of a single whose download brought an album tag.
- LibraryIndex.Index.ProcessFile: savepoints for concurrent inserts, track columns without effect on identity, and one tombstone per recording.
- LibraryScanner.Scan: the walk's order and suffix filter are its input.
- TreeMerge.FileSystem.MergeTree: the source takes children in sorted order, the model leaves the order open, so which movable files had moved before a part-way failure is not said; permissions, cross-device moves and symbolic links.
- MoveArtist.ArtistMover.Move: an artist whose folder is the private folder itself, where the source and destination trees overlap; which files of a folder that fails part-way had crossed; the counters for an artist named like the folder of all singles, whose folders nest.
- Placement.AlbumsNeverStraddle: libraries are flags, which `Placement.FoldersMoveIsMovedAll` ties to the paths; moves meet no collision (a colliding file stays behind) and no case variant of a folder; cohesion has settled title and artist; a row whose file is missing is not repointed by a move.
- AlbumMerge.Library.TrashBare: a folder whose own name ends in an audio suffix does not keep the one above it; what becomes of the files in the trash, which files them under the second and their name, so that two of one name in one second replace each other; a trash folder below a source folder.
- AlbumMerge.Library.MergeAlbums: creating the fallback folder, stripping version tags, and tag writes that fail; the object cache may show a later merge the canonical album's tracks as first loaded, the model reads them afresh.
- MatchRanking.Identify: floats are reals; the staged MusicBrainz search, its cache and AcoustID itself are inputs.
- LrcShift.ShiftKeepsText: ASCII digits only; floats are reals.
- Merging artists, source replacement, album metadata edits and manual retry: they bypass the hypotheses of the theorems.
- HTTP routes, templates, the service worker, the Android shell, yt-dlp, ffmpeg and tag libraries, Navidrome and LRCLIB calls: plumbing or external programs.
- Push, configuration, failure messages, backoff helper, migrations: nothing hard to prove.
