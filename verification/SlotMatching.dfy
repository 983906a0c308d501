/** Pairing an album's local tracks with the slots of a MusicBrainz tracklist:
    by recording id first, then by title among the slots still free. */
module SlotMatching {
  import opened Prelude

  datatype Track = Track(title: string, recording: Option<string>)

  datatype Slot = Slot(title: string, recording: Option<string>)

  type Sim = (string, string) -> real

  /** Pairs of a track's and a slot's position. */
  type Pairs = seq<(nat, nat)>

  const ENOUGH: real := 0.80

  /** The slot filed under a recording id: the last one that carries it. */
  function SlotOf(slots: seq<Slot>, rid: string): (s: Option<nat>)
    ensures s.Some? ==> s.value < |slots|
  {
    if slots == [] then None
    else if slots[|slots| - 1].recording == Some(rid) then Some(|slots| - 1)
    else SlotOf(slots[..|slots| - 1], rid)
  }

  lemma {:induction false} SlotOfIsLast(slots: seq<Slot>, rid: string)
    ensures match SlotOf(slots, rid)
            case Some(s) =>
              slots[s].recording == Some(rid) && forall j :: s < j < |slots| ==> slots[j].recording != Some(rid)
            case None => forall j :: 0 <= j < |slots| ==> slots[j].recording != Some(rid)
  {
    if slots != [] && slots[|slots| - 1].recording != Some(rid) { SlotOfIsLast(slots[..|slots| - 1], rid); }
  }

  function Wanted(track: Track, slots: seq<Slot>): Option<nat> {
    if track.recording.None? then None else SlotOf(slots, track.recording.value)
  }

  predicate Taken(ms: Pairs, s: nat) {
    exists i :: 0 <= i < |ms| && ms[i].1 == s
  }

  predicate Matched(ms: Pairs, t: nat) {
    exists i :: 0 <= i < |ms| && ms[i].0 == t
  }

  /** No track and no slot occurs twice, and all positions exist. */
  ghost predicate Injective(tracks: seq<Track>, slots: seq<Slot>, ms: Pairs) {
    && (forall i :: 0 <= i < |ms| ==> ms[i].0 < |tracks| && ms[i].1 < |slots|)
    && (forall i, j :: 0 <= i < j < |ms| ==> ms[i].0 != ms[j].0 && ms[i].1 != ms[j].1)
  }

  /** The slot went to track t or an earlier one. */
  predicate Claimed(ms: Pairs, s: nat, t: nat) {
    exists i :: 0 <= i < |ms| && ms[i].1 == s && ms[i].0 <= t
  }

  /** Each wanted slot goes to the first track wanting it, and only such pairs
      are made. */
  ghost predicate ById(tracks: seq<Track>, slots: seq<Slot>, ms: Pairs, n: nat)
    requires n <= |tracks|
  {
    && (forall i :: 0 <= i < |ms| ==> ms[i].0 < n && Wanted(tracks[ms[i].0], slots) == Some(ms[i].1))
    && (forall t :: 0 <= t < n && Wanted(tracks[t], slots).Some? ==> Claimed(ms, Wanted(tracks[t], slots).value, t))
  }

  /** s is a free slot most like the title, the first such one. */
  ghost predicate BestFree(sim: Sim, title: string, slots: seq<Slot>, taken: Pairs, s: nat) {
    && s < |slots| && !Taken(taken, s) && sim(title, slots[s].title) >= ENOUGH
    && forall r :: 0 <= r < |slots| && !Taken(taken, r) ==>
         sim(title, slots[r].title) <= sim(title, slots[s].title)
         && (r < s ==> sim(title, slots[r].title) < sim(title, slots[s].title))
  }

  /** From position k on, every pair is a track not matched by id with the best
      slot free at its turn; tracks come in order. */
  ghost predicate ByTitle(sim: Sim, tracks: seq<Track>, slots: seq<Slot>, ms: Pairs, k: nat) {
    forall i :: k <= i < |ms| ==>
      && ms[i].0 < |tracks| && BestFree(sim, tracks[ms[i].0].title, slots, ms[..i], ms[i].1)
      && (i > k ==> ms[i - 1].0 < ms[i].0)
  }

  /** A track left over has no slot similar enough, except ones taken by id or
      by an earlier track. */
  ghost predicate LeftOver(sim: Sim, tracks: seq<Track>, slots: seq<Slot>, ms: Pairs, k: nat, t: nat)
    requires t < |tracks|
  {
    forall s :: 0 <= s < |slots| && sim(tracks[t].title, slots[s].title) >= ENOUGH ==>
      exists i :: 0 <= i < |ms| && ms[i].1 == s && (i < k || ms[i].0 < t)
  }

  lemma ClaimedMore(ms: Pairs, m: (nat, nat), s: nat, t: nat)
    requires Claimed(ms, s, t) || (m.1 == s && m.0 <= t)
    ensures Claimed(ms + [m], s, t)
  {
    var more := ms + [m];
    if Claimed(ms, s, t) {
      var i :| 0 <= i < |ms| && ms[i].1 == s && ms[i].0 <= t;
      assert more[i] == ms[i];
    } else {
      assert more[|ms|] == m;
    }
  }

  lemma IdPair(tracks: seq<Track>, slots: seq<Slot>, ms: Pairs, t: nat, s: nat)
    requires t < |tracks| && ById(tracks, slots, ms, t) && Wanted(tracks[t], slots) == Some(s)
    ensures ById(tracks, slots, ms + [(t, s)], t + 1)
  {
    var more := ms + [(t, s)];
    forall u | 0 <= u < t + 1 && Wanted(tracks[u], slots).Some?
      ensures Claimed(more, Wanted(tracks[u], slots).value, u)
    {
      ClaimedMore(ms, (t, s), Wanted(tracks[u], slots).value, u);
    }
  }

  lemma FreshPair(tracks: seq<Track>, slots: seq<Slot>, ms: Pairs, t: nat, s: nat)
    requires Injective(tracks, slots, ms) && t < |tracks| && s < |slots| && !Taken(ms, s)
    requires forall i :: 0 <= i < |ms| ==> ms[i].0 < t
    ensures Injective(tracks, slots, ms + [(t, s)])
  {
  }

  lemma TakenIsClaimed(tracks: seq<Track>, slots: seq<Slot>, ms: Pairs, t: nat, s: nat)
    requires t < |tracks| && ById(tracks, slots, ms, t) && Taken(ms, s)
    ensures Claimed(ms, s, t)
  {
    var i :| 0 <= i < |ms| && ms[i].1 == s;
    assert ms[i].0 < t;
  }

  lemma IdSkip(tracks: seq<Track>, slots: seq<Slot>, ms: Pairs, t: nat)
    requires t < |tracks| && ById(tracks, slots, ms, t)
    requires Wanted(tracks[t], slots).Some? ==> Taken(ms, Wanted(tracks[t], slots).value)
    ensures ById(tracks, slots, ms, t + 1)
  {
    var w := Wanted(tracks[t], slots);
    if w.Some? { TakenIsClaimed(tracks, slots, ms, t, w.value); }
    forall u | 0 <= u < t + 1 && Wanted(tracks[u], slots).Some?
      ensures Claimed(ms, Wanted(tracks[u], slots).value, u)
    {
    }
  }

  /** The pair shares a recording id, and no later slot carries it. */
  ghost predicate SameRecording(track: Track, slots: seq<Slot>, s: nat) {
    && s < |slots| && track.recording.Some? && slots[s].recording == track.recording
    && forall j :: s < j < |slots| ==> slots[j].recording != track.recording
  }

  lemma WantedIff(track: Track, slots: seq<Slot>, s: nat)
    ensures Wanted(track, slots) == Some(s) <==> SameRecording(track, slots, s)
  {
    if track.recording.Some? { SlotOfIsLast(slots, track.recording.value); }
  }

  method MatchById(tracks: seq<Track>, slots: seq<Slot>) returns (ms: Pairs)
    ensures Injective(tracks, slots, ms) && ById(tracks, slots, ms, |tracks|)
    ensures forall i :: 0 <= i < |ms| ==> SameRecording(tracks[ms[i].0], slots, ms[i].1)
    ensures forall t, s :: 0 <= t < |tracks| && SameRecording(tracks[t], slots, s) ==> Claimed(ms, s, t)
  {
    ms := [];
    for t := 0 to |tracks|
      invariant Injective(tracks, slots, ms) && ById(tracks, slots, ms, t)
    {
      var s := Wanted(tracks[t], slots);
      if s.Some? && !Taken(ms, s.value) {
        FreshPair(tracks, slots, ms, t, s.value);
        IdPair(tracks, slots, ms, t, s.value);
        ms := ms + [(t, s.value)];
      } else {
        IdSkip(tracks, slots, ms, t);
      }
    }
    forall i | 0 <= i < |ms| ensures SameRecording(tracks[ms[i].0], slots, ms[i].1) {
      WantedIff(tracks[ms[i].0], slots, ms[i].1);
    }
    forall t, s | 0 <= t < |tracks| && SameRecording(tracks[t], slots, s) ensures Claimed(ms, s, t) {
      WantedIff(tracks[t], slots, s);
    }
  }

  method FindBest(sim: Sim, title: string, slots: seq<Slot>, taken: Pairs) returns (best: Option<nat>)
    ensures best.Some? ==> BestFree(sim, title, slots, taken, best.value)
    ensures best.None? ==> forall r :: 0 <= r < |slots| && !Taken(taken, r) ==> sim(title, slots[r].title) < ENOUGH
  {
    best := None;
    var top := 0.0;
    for s := 0 to |slots|
      invariant best.None? ==> top == 0.0
      invariant best.Some? ==> best.value < s && !Taken(taken, best.value) && sim(title, slots[best.value].title) == top
      invariant forall r :: 0 <= r < s && !Taken(taken, r) ==> sim(title, slots[r].title) <= top
      invariant best.Some? ==> forall r :: 0 <= r < best.value && !Taken(taken, r) ==> sim(title, slots[r].title) < top
    {
      if !Taken(taken, s) && sim(title, slots[s].title) > top {
        best, top := Some(s), sim(title, slots[s].title);
      }
    }
    if top < ENOUGH { best := None; }
  }

  lemma MatchedMore(ms: Pairs, m: (nat, nat), t: nat)
    ensures Matched(ms + [m], t) <==> Matched(ms, t) || m.0 == t
  {
    assert forall i :: 0 <= i < |ms| ==> (ms + [m])[i] == ms[i];
    assert (ms + [m])[|ms|] == m;
  }

  /** The progress of the title pass after the first n tracks. */
  ghost predicate Upto(sim: Sim, tracks: seq<Track>, slots: seq<Slot>, ids: Pairs, ms: Pairs, n: nat)
    requires n <= |tracks|
  {
    && Injective(tracks, slots, ms) && |ids| <= |ms| && ms[..|ids|] == ids
    && ByTitle(sim, tracks, slots, ms, |ids|)
    && (forall i :: |ids| <= i < |ms| ==> ms[i].0 < n)
    && (forall t :: 0 <= t < n && !Matched(ms, t) ==> LeftOver(sim, tracks, slots, ms, |ids|, t))
  }

  lemma KeepsIds(ids: Pairs, ms: Pairs, t: nat)
    requires |ids| <= |ms| && ms[..|ids|] == ids
    ensures Matched(ids, t) ==> Matched(ms, t)
    ensures Matched(ms, t) && !Matched(ids, t) ==> exists i :: |ids| <= i < |ms| && ms[i].0 == t
  {
    assert forall i :: 0 <= i < |ids| ==> ms[i] == ids[i];
  }

  lemma TitlesMore(sim: Sim, tracks: seq<Track>, slots: seq<Slot>, ms: Pairs, k: nat, n: nat, s: nat)
    requires n < |tracks| && k <= |ms| && ByTitle(sim, tracks, slots, ms, k)
    requires forall i :: k <= i < |ms| ==> ms[i].0 < n
    requires BestFree(sim, tracks[n].title, slots, ms, s)
    ensures ByTitle(sim, tracks, slots, ms + [(n, s)], k)
  {
    var more := ms + [(n, s)];
    forall i | k <= i < |more|
      ensures more[i].0 < |tracks| && BestFree(sim, tracks[more[i].0].title, slots, more[..i], more[i].1)
      ensures i > k ==> more[i - 1].0 < more[i].0
    {
      assert more[..i] == ms[..i];
      if i == |ms| { assert ms[..i] == ms; }
    }
  }

  lemma InjectiveMore(tracks: seq<Track>, slots: seq<Slot>, ms: Pairs, t: nat, s: nat)
    requires Injective(tracks, slots, ms) && t < |tracks| && s < |slots| && !Matched(ms, t) && !Taken(ms, s)
    ensures Injective(tracks, slots, ms + [(t, s)])
  {
  }

  lemma LeftOverMore(sim: Sim, tracks: seq<Track>, slots: seq<Slot>, ms: Pairs, k: nat, t: nat, m: (nat, nat))
    requires t < |tracks| && LeftOver(sim, tracks, slots, ms, k, t)
    ensures LeftOver(sim, tracks, slots, ms + [m], k, t)
  {
    forall s | 0 <= s < |slots| && sim(tracks[t].title, slots[s].title) >= ENOUGH
      ensures exists i :: 0 <= i < |ms + [m]| && (ms + [m])[i].1 == s && (i < k || (ms + [m])[i].0 < t)
    {
      var i :| 0 <= i < |ms| && ms[i].1 == s && (i < k || ms[i].0 < t);
      assert (ms + [m])[i] == ms[i];
    }
  }

  lemma UptoPair(sim: Sim, tracks: seq<Track>, slots: seq<Slot>, ids: Pairs, ms: Pairs, n: nat, s: nat)
    requires n < |tracks| && Upto(sim, tracks, slots, ids, ms, n) && !Matched(ids, n)
    requires BestFree(sim, tracks[n].title, slots, ms, s)
    ensures Upto(sim, tracks, slots, ids, ms + [(n, s)], n + 1)
  {
    var more := ms + [(n, s)];
    assert more[..|ids|] == ms[..|ids|];
    KeepsIds(ids, ms, n);
    InjectiveMore(tracks, slots, ms, n, s);
    TitlesMore(sim, tracks, slots, ms, |ids|, n, s);
    forall t | 0 <= t < n + 1 && !Matched(more, t) ensures LeftOver(sim, tracks, slots, more, |ids|, t) {
      MatchedMore(ms, (n, s), t);
      LeftOverMore(sim, tracks, slots, ms, |ids|, t, (n, s));
    }
  }

  lemma UptoNone(sim: Sim, tracks: seq<Track>, slots: seq<Slot>, ids: Pairs, ms: Pairs, n: nat)
    requires n < |tracks| && Upto(sim, tracks, slots, ids, ms, n)
    requires !Matched(ms, n) ==>
      forall r :: 0 <= r < |slots| && !Taken(ms, r) ==> sim(tracks[n].title, slots[r].title) < ENOUGH
    ensures Upto(sim, tracks, slots, ids, ms, n + 1)
  {
  }

  /** The best free slot for one track, if similar enough. */
  method TitleTurn(sim: Sim, tracks: seq<Track>, slots: seq<Slot>, ghost ids: Pairs, ms: Pairs,
                   t: nat) returns (next: Pairs)
    requires t < |tracks| && Upto(sim, tracks, slots, ids, ms, t) && !Matched(ids, t)
    ensures Upto(sim, tracks, slots, ids, next, t + 1)
  {
    var best := FindBest(sim, tracks[t].title, slots, ms);
    if best.Some? {
      UptoPair(sim, tracks, slots, ids, ms, t, best.value);
      next := ms + [(t, best.value)];
    } else {
      UptoNone(sim, tracks, slots, ids, ms, t);
      next := ms;
    }
  }

  /** What the title pass promises. */
  ghost predicate Settled(sim: Sim, tracks: seq<Track>, slots: seq<Slot>, ms: Pairs, k: nat) {
    && Injective(tracks, slots, ms) && k <= |ms| && ByTitle(sim, tracks, slots, ms, k)
    && forall t :: 0 <= t < |tracks| && !Matched(ms, t) ==> LeftOver(sim, tracks, slots, ms, k, t)
  }

  /** The result of both passes; the first k pairs are those by id. */
  ghost predicate Paired(sim: Sim, tracks: seq<Track>, slots: seq<Slot>, ms: Pairs, k: nat) {
    Settled(sim, tracks, slots, ms, k) && ById(tracks, slots, ms[..k], |tracks|)
  }

  method MatchSlots(sim: Sim, tracks: seq<Track>, slots: seq<Slot>) returns (ms: Pairs)
    ensures exists k: nat :: Paired(sim, tracks, slots, ms, k)
  {
    var ids := MatchById(tracks, slots);
    ms := ids;
    for t := 0 to |tracks|
      invariant Upto(sim, tracks, slots, ids, ms, t)
    {
      if Matched(ids, t) {
        KeepsIds(ids, ms, t);
        UptoNone(sim, tracks, slots, ids, ms, t);
      } else {
        ms := TitleTurn(sim, tracks, slots, ids, ms, t);
      }
    }
    assert Paired(sim, tracks, slots, ms, |ids|);
  }

  // ---- Consequences ----

  /** No unmatched track and free slot similar enough remain. */
  lemma NothingMoreToMatch(sim: Sim, tracks: seq<Track>, slots: seq<Slot>, ms: Pairs, k: nat, t: nat, s: nat)
    requires Paired(sim, tracks, slots, ms, k)
    requires t < |tracks| && s < |slots| && !Matched(ms, t) && !Taken(ms, s)
    ensures sim(tracks[t].title, slots[s].title) < 0.80
  {
  }

  /** And none that is not was paired by title. */
  lemma TitlePairsAreAlike(sim: Sim, tracks: seq<Track>, slots: seq<Slot>, ms: Pairs, k: nat, i: nat)
    requires Paired(sim, tracks, slots, ms, k) && k <= i < |ms|
    ensures ms[i].0 < |tracks| && ms[i].1 < |slots| && sim(tracks[ms[i].0].title, slots[ms[i].1].title) >= 0.80
  {
  }

  /** A slot whose recording some track has, the last such slot, goes to the
      first track that has it, before any title is looked at; and only such
      pairs are made by id. */
  lemma IdComesFirst(sim: Sim, tracks: seq<Track>, slots: seq<Slot>, ms: Pairs, k: nat, t: nat, s: nat)
    requires Paired(sim, tracks, slots, ms, k)
    requires t < |tracks| && SameRecording(tracks[t], slots, s)
    ensures exists i :: 0 <= i < k && ms[i].1 == s && ms[i].0 <= t
    ensures forall i :: k <= i < |ms| ==> ms[i].1 != s
    ensures forall i :: 0 <= i < k ==> SameRecording(tracks[ms[i].0], slots, ms[i].1)
  {
    WantedIff(tracks[t], slots, s);
    assert Claimed(ms[..k], s, t);
    var i :| 0 <= i < |ms[..k]| && ms[..k][i].1 == s && ms[..k][i].0 <= t;
    assert ms[i] == ms[..k][i];
    forall i | 0 <= i < k ensures SameRecording(tracks[ms[i].0], slots, ms[i].1) {
      assert ms[..k][i] == ms[i];
      WantedIff(tracks[ms[i].0], slots, ms[i].1);
    }
  }

  lemma {:induction false} Ascending(sim: Sim, tracks: seq<Track>, slots: seq<Slot>, ms: Pairs, k: nat, i: nat, j: nat)
    requires ByTitle(sim, tracks, slots, ms, k) && k <= i <= j < |ms|
    ensures ms[i].0 <= ms[j].0
  {
    if i < j { Ascending(sim, tracks, slots, ms, k, i, j - 1); }
  }

  /** Where a goes on after a common start, b cannot pass over that track. */
  lemma NotSkipped(sim: Sim, tracks: seq<Track>, slots: seq<Slot>, a: Pairs, b: Pairs, k: nat, j: nat)
    requires Settled(sim, tracks, slots, a, k) && Settled(sim, tracks, slots, b, k)
    requires k <= j < |a| && j <= |b| && a[..j] == b[..j]
    ensures j < |b| && b[j].0 <= a[j].0
  {
    var (t, s) := a[j];
    assert forall i :: 0 <= i < j ==> a[i] == a[..j][i] && b[i] == b[..j][i];
    if j == |b| || b[j].0 > t {
      assert !Matched(b, t) by {
        forall i | j <= i < |b| ensures b[i].0 != t { Ascending(sim, tracks, slots, b, k, j, i); }
      }
      assert LeftOver(sim, tracks, slots, b, k, t);
      var i :| 0 <= i < |b| && b[i].1 == s && (i < k || b[i].0 < t);
      if j <= i { Ascending(sim, tracks, slots, b, k, j, i); }
      assert false;
    }
  }

  /** So both go on with the same track, and with the same slot. */
  lemma NextPairSame(sim: Sim, tracks: seq<Track>, slots: seq<Slot>, a: Pairs, b: Pairs, k: nat, j: nat)
    requires Settled(sim, tracks, slots, a, k) && Settled(sim, tracks, slots, b, k)
    requires k <= j < |a| && j <= |b| && a[..j] == b[..j]
    ensures j < |b| && a[..j + 1] == b[..j + 1]
  {
    NotSkipped(sim, tracks, slots, a, b, k, j);
    NotSkipped(sim, tracks, slots, b, a, k, j);
    BestIsUnique(sim, tracks[a[j].0].title, slots, a[..j], a[j].1, b[j].1);
    SamePrefix(a, b, j);
  }

  lemma SamePrefix(a: Pairs, b: Pairs, j: nat)
    requires j < |a| && j < |b| && a[..j] == b[..j] && a[j] == b[j]
    ensures a[..j + 1] == b[..j + 1]
  {
    assert a[..j + 1] == a[..j] + [a[j]] && b[..j + 1] == b[..j] + [b[j]];
  }

  lemma BestIsUnique(sim: Sim, title: string, slots: seq<Slot>, taken: Pairs, s: nat, r: nat)
    requires BestFree(sim, title, slots, taken, s) && BestFree(sim, title, slots, taken, r)
    ensures s == r
  {
  }

  lemma {:induction false} GoOnTogether(sim: Sim, tracks: seq<Track>, slots: seq<Slot>, a: Pairs, b: Pairs, k: nat,
                                        j: nat)
    requires Settled(sim, tracks, slots, a, k) && Settled(sim, tracks, slots, b, k)
    requires k <= j <= |a| && j <= |b| && a[..j] == b[..j]
    ensures a <= b
    decreases |a| - j
  {
    if j == |a| {
      assert a == a[..j] == b[..j];
    } else {
      NextPairSame(sim, tracks, slots, a, b, k, j);
      GoOnTogether(sim, tracks, slots, a, b, k, j + 1);
    }
  }

  /** The promises leave no freedom: given the id pairs, the rest is determined. */
  lemma TitlePairsDetermined(sim: Sim, tracks: seq<Track>, slots: seq<Slot>, a: Pairs, b: Pairs, k: nat)
    requires Settled(sim, tracks, slots, a, k) && Settled(sim, tracks, slots, b, k) && a[..k] == b[..k]
    ensures a == b
  {
    GoOnTogether(sim, tracks, slots, a, b, k, k);
    GoOnTogether(sim, tracks, slots, b, a, k, k);
  }
}
