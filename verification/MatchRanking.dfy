/** Choosing a MusicBrainz recording: the candidate pool, the ranking by several
    signals, and the acceptance of the winner. */
module MatchRanking {
  import opened Prelude
  import opened StableSort
  import opened Similarity

  datatype Recording = Recording(id: string, title: string, artist: string, duration: Option<int>,
                                 group: Option<string>)

  /** What is being looked for, with names already cleaned for searching. */
  datatype Wanted = Wanted(title: string, artist: string, duration: Option<int>, group: Option<string>)

  datatype Scored = Scored(rec: Recording, text: real, query: real, fingerprint: bool, combined: real,
                           artistSim: real, penalty: real)

  const FLOOR: real := 0.40
  const GROUP_BOOST: real := 0.10
  const QUERY_WEIGHT: real := 0.10
  const FINGERPRINT_WEIGHT: real := 0.15
  const GATE_SIM: real := 0.34
  const GATE_PENALTY: real := 0.25

  // ---- The pool ----

  function BaseSim(words: Words, w: Wanted, rec: Recording): real {
    TrackSimilarity(words, w.title, w.artist, w.duration, rec.title, rec.artist, rec.duration)
  }

  /** Recordings of the preferred release group are favoured. */
  function TextSim(words: Words, w: Wanted, rec: Recording): real {
    var sim := BaseSim(words, w, rec);
    if w.group.Some? && rec.group == w.group then Min(sim + GROUP_BOOST, 1.0) else sim
  }

  type Pool = seq<(Recording, real)>

  function Plausible(words: Words, w: Wanted, records: seq<Recording>): Pool {
    if records == [] then []
    else
      var rec := records[|records| - 1];
      var sim := TextSim(words, w, rec);
      Plausible(words, w, records[..|records| - 1]) + (if sim >= FLOOR then [(rec, sim)] else [])
  }

  predicate MoreAlike(x: (Recording, real), y: (Recording, real)) {
    x.1 > y.1
  }

  method CandidatePool(words: Words, w: Wanted, records: seq<Recording>) returns (pool: Pool)
    ensures pool == Sort(Plausible(words, w, records), MoreAlike)
  {
    pool := [];
    for i := 0 to |records|
      invariant pool == Plausible(words, w, records[..i])
    {
      assert records[..i + 1][..i] == records[..i];
      var sim := BaseSim(words, w, records[i]);
      if w.group.Some? && records[i].group == w.group { sim := Min(sim + GROUP_BOOST, 1.0); }
      if sim >= FLOOR { pool := pool + [(records[i], sim)]; }
    }
    assert records[..|records|] == records;
    pool := Sort(pool, MoreAlike);
  }

  // ---- The ranking ----

  /** An empty text is the same as none. */
  predicate Given(s: Option<string>) {
    s.Some? && s.value != ""
  }

  function Score(words: Words, query: Option<string>, fingerprint: Option<string>, artist: Option<string>,
                 rec: Recording, text: real): Scored
  {
    var q := if Given(query) then Sim(words, query.value, rec.title + " " + rec.artist) else 0.0;
    var hit := Given(fingerprint) && rec.id == fingerprint.value;
    var gated := Given(artist) && rec.artist != "";
    var alike := if gated then Sim(words, artist.value, rec.artist) else 1.0;
    var penalty := if gated && alike < GATE_SIM && !hit then GATE_PENALTY else 0.0;
    Scored(rec, text, q, hit, text + QUERY_WEIGHT * q + (if hit then FINGERPRINT_WEIGHT else 0.0) - penalty, alike,
           penalty)
  }

  function Scores(words: Words, query: Option<string>, fingerprint: Option<string>, artist: Option<string>,
                  pool: Pool): (r: seq<Scored>)
    ensures |r| == |pool|
    ensures forall i :: 0 <= i < |pool| ==> r[i] == Score(words, query, fingerprint, artist, pool[i].0, pool[i].1)
  {
    if pool == [] then []
    else
      var last := pool[|pool| - 1];
      Scores(words, query, fingerprint, artist, pool[..|pool| - 1])
      + [Score(words, query, fingerprint, artist, last.0, last.1)]
  }

  lemma ScoresStep(words: Words, query: Option<string>, fingerprint: Option<string>, artist: Option<string>,
                   pool: Pool, i: nat)
    requires i < |pool|
    ensures Scores(words, query, fingerprint, artist, pool[..i + 1])
            == Scores(words, query, fingerprint, artist, pool[..i])
               + [Score(words, query, fingerprint, artist, pool[i].0, pool[i].1)]
  {
    assert pool[..i + 1][..i] == pool[..i];
  }

  predicate Better(x: Scored, y: Scored) {
    x.combined > y.combined
  }

  /** One candidate's score, built up signal by signal. */
  method ScoreOne(words: Words, query: Option<string>, fingerprint: Option<string>, artist: Option<string>,
                  rec: Recording, text: real) returns (s: Scored)
    ensures s == Score(words, query, fingerprint, artist, rec, text)
  {
    var q, alike, penalty := 0.0, 1.0, 0.0;
    if Given(query) { q := Sim(words, query.value, rec.title + " " + rec.artist); }
    var hit := Given(fingerprint) && rec.id == fingerprint.value;
    if Given(artist) && rec.artist != "" {
      alike := Sim(words, artist.value, rec.artist);
      if alike < GATE_SIM && !hit { penalty := GATE_PENALTY; }
    }
    var combined := text + QUERY_WEIGHT * q + (if hit then FINGERPRINT_WEIGHT else 0.0) - penalty;
    s := Scored(rec, text, q, hit, combined, alike, penalty);
  }

  method RankCandidates(words: Words, query: Option<string>, fingerprint: Option<string>, artist: Option<string>,
                        pool: Pool)
    returns (ranked: seq<Scored>)
    ensures ranked == Sort(Scores(words, query, fingerprint, artist, pool), Better)
  {
    var scored := [];
    for i := 0 to |pool|
      invariant scored == Scores(words, query, fingerprint, artist, pool[..i])
    {
      ScoresStep(words, query, fingerprint, artist, pool, i);
      var s := ScoreOne(words, query, fingerprint, artist, pool[i].0, pool[i].1);
      scored := scored + [s];
    }
    assert pool[..|pool|] == pool;
    ranked := Sort(scored, Better);
  }

  // ---- The decision ----

  function FullPool(words: Words, w: Wanted, records: seq<Recording>, fingerprint: Option<string>,
                    bonus: Option<Recording>): Pool
  {
    var pool := Sort(Plausible(words, w, records), MoreAlike);
    if fingerprint.Some? && bonus.Some? && forall p :: p in pool ==> p.0.id != fingerprint.value
    then pool + [(bonus.value, BaseSim(words, w, bonus.value))]
    else pool
  }

  function Ranking(words: Words, w: Wanted, records: seq<Recording>, query: Option<string>,
                   fingerprint: Option<string>, bonus: Option<Recording>): seq<Scored>
  {
    Sort(Scores(words, query, fingerprint, if w.artist == "" then None else Some(w.artist),
                FullPool(words, w, records, fingerprint, bonus)), Better)
  }

  /** The winner, and whether the fingerprint was essential. `bonus` is what
      looking the fingerprint hit up returned. */
  method Identify(words: Words, w: Wanted, records: seq<Recording>, query: Option<string>,
                  fingerprint: Option<string>, bonus: Option<Recording>)
    returns (winner: Option<Scored>, essential: bool)
    ensures var ranked := Ranking(words, w, records, query, fingerprint, bonus);
            winner == if ranked != [] && ranked[0].combined >= THRESHOLD then Some(ranked[0]) else None
    ensures essential <==> winner.Some? && fingerprint == Some(winner.value.rec.id) && winner.value.text < THRESHOLD
  {
    var pool := CandidatePool(words, w, records);
    if fingerprint.Some? && bonus.Some? && forall p | p in pool :: p.0.id != fingerprint.value {
      pool := pool + [(bonus.value, BaseSim(words, w, bonus.value))];
    }
    var ranked := RankCandidates(words, query, fingerprint, if w.artist == "" then None else Some(w.artist), pool);
    if ranked == [] || ranked[0].combined < THRESHOLD { return None, false; }
    return Some(ranked[0]), fingerprint == Some(ranked[0].rec.id) && ranked[0].text < THRESHOLD;
  }

  // ---- What a score is made of ----

  /** The signals: the text score in full, a tenth of the query's similarity if
      there is a query, 0.15 for a fingerprint hit, and 0.25 off for an artist
      less than 0.34 alike, unless that is unknown on either side or the
      fingerprint hit. An empty text is none. */
  lemma ScoreIs(words: Words, query: Option<string>, fingerprint: Option<string>, artist: Option<string>,
                rec: Recording, text: real)
    ensures var s := Score(words, query, fingerprint, artist, rec, text);
            && s.rec == rec && s.text == text
            && (s.fingerprint <==> rec.id != "" && fingerprint == Some(rec.id))
            && (query == None || query == Some("") ==> s.query == 0.0)
            && (query.Some? && query.value != "" ==> s.query == Sim(words, query.value, rec.title + " " + rec.artist))
            && (artist == None || artist == Some("") || rec.artist == "" ==> s.artistSim == 1.0 && s.penalty == 0.0)
            && (artist.Some? && artist.value != "" && rec.artist != "" ==>
                  && s.artistSim == Sim(words, artist.value, rec.artist)
                  && s.penalty == if s.artistSim < 0.34 && !s.fingerprint then 0.25 else 0.0)
            && s.combined == text + 0.10 * s.query + (if s.fingerprint then 0.15 else 0.0) - s.penalty
  {
  }

  /** The recording behind the fingerprint joins, last and without the release
      group's favour, exactly if it was looked up and its id is not in the pool. */
  lemma FullPoolIs(words: Words, w: Wanted, records: seq<Recording>, fingerprint: Option<string>,
                   bonus: Option<Recording>)
    ensures var pool, full := Sort(Plausible(words, w, records), MoreAlike),
                              FullPool(words, w, records, fingerprint, bonus);
            if fingerprint.Some? && bonus.Some? && !(exists p :: p in pool && p.0.id == fingerprint.value)
            then |full| == |pool| + 1 && full[..|pool|] == pool && full[|pool|].0 == bonus.value
                 && full[|pool|].1 == TrackSimilarity(words, w.title, w.artist, w.duration, bonus.value.title,
                                                      bonus.value.artist, bonus.value.duration)
            else full == pool
  {
  }

  // ---- What a winner is worth ----

  lemma OrdersAreStrictWeak()
    ensures StrictWeak<Scored>(Better) && StrictWeak<(Recording, real)>(MoreAlike)
  {
  }

  lemma {:induction false} PlausibleText(words: Words, w: Wanted, records: seq<Recording>)
    ensures forall p :: p in Plausible(words, w, records) ==> p.1 == TextSim(words, w, p.0) && p.1 >= FLOOR
    ensures forall p :: p in Plausible(words, w, records) ==> p.0 in records
  {
    if records != [] { PlausibleText(words, w, records[..|records| - 1]); }
  }

  lemma {:induction false} PlausibleIff(words: Words, w: Wanted, records: seq<Recording>, rec: Recording)
    ensures TextSim(words, w, rec) >= 0.40 ==>
              multiset(Plausible(words, w, records))[(rec, TextSim(words, w, rec))] == multiset(records)[rec]
    ensures TextSim(words, w, rec) < 0.40 ==> forall x :: (rec, x) !in Plausible(words, w, records)
  {
    if records != [] {
      var front, last := records[..|records| - 1], records[|records| - 1];
      PlausibleIff(words, w, front, rec);
      assert records == front + [last];
    }
  }

  /** The pool is in order, and holds exactly the records that reach the floor,
      each as often as it was found. */
  lemma PoolIs(words: Words, w: Wanted, records: seq<Recording>)
    ensures var pool := Sort(Plausible(words, w, records), MoreAlike);
            && (forall i, j :: 0 <= i < j < |pool| ==> pool[i].1 >= pool[j].1)
            && (forall p :: p in pool ==> p.0 in records && p.1 == TextSim(words, w, p.0) && p.1 >= 0.40)
            && (forall rec :: rec in records && TextSim(words, w, rec) >= 0.40 ==>
                  multiset(pool)[(rec, TextSim(words, w, rec))] == multiset(records)[rec])
  {
    OrdersAreStrictWeak();
    SortIsStable(Plausible(words, w, records), MoreAlike);
    PlausibleText(words, w, records);
    SameElements(Sort(Plausible(words, w, records), MoreAlike), Plausible(words, w, records));
    forall rec ensures TextSim(words, w, rec) >= 0.40 ==>
                         multiset(Plausible(words, w, records))[(rec, TextSim(words, w, rec))] == multiset(records)[rec]
    {
      PlausibleIff(words, w, records, rec);
    }
    var pool := Sort(Plausible(words, w, records), MoreAlike);
    forall i, j | 0 <= i < j < |pool| ensures pool[i].1 >= pool[j].1 {
      assert !MoreAlike(pool[j], pool[i]);
    }
  }

  /** The release group preferred adds a tenth, up to 1; it must be one. */
  lemma TextSimIs(words: Words, w: Wanted, rec: Recording)
    ensures var base, text := BaseSim(words, w, rec), TextSim(words, w, rec);
            && (w.group.None? || rec.group != w.group ==> text == base)
            && (w.group.Some? && rec.group == w.group ==> text == if base + 0.10 > 1.0 then 1.0 else base + 0.10)
  {
  }

  /** Every candidate's text score is its similarity, favoured at most once. */
  lemma PoolText(words: Words, w: Wanted, records: seq<Recording>, fingerprint: Option<string>,
                 bonus: Option<Recording>)
    ensures forall p :: p in FullPool(words, w, records, fingerprint, bonus) ==>
              p.1 == TextSim(words, w, p.0) || p.1 == BaseSim(words, w, p.0)
  {
    PlausibleText(words, w, records);
    OrdersAreStrictWeak();
    SortIsStable(Plausible(words, w, records), MoreAlike);
    SameElements(Sort(Plausible(words, w, records), MoreAlike), Plausible(words, w, records));
  }

  lemma SameElements<T>(a: seq<T>, b: seq<T>)
    requires multiset(a) == multiset(b)
    ensures forall x :: x in a <==> x in b
  {
    forall x ensures x in a <==> x in b {
      assert x in multiset(a) <==> x in multiset(b);
    }
  }

  ghost predicate FromPool(words: Words, w: Wanted, query: Option<string>, fingerprint: Option<string>, s: Scored) {
    && (s.text == TextSim(words, w, s.rec) || s.text == BaseSim(words, w, s.rec))
    && s == Score(words, query, fingerprint, if w.artist == "" then None else Some(w.artist), s.rec, s.text)
  }

  lemma RankedFromPool(words: Words, w: Wanted, records: seq<Recording>, query: Option<string>,
                       fingerprint: Option<string>, bonus: Option<Recording>, s: Scored)
    requires s in Ranking(words, w, records, query, fingerprint, bonus)
    ensures FromPool(words, w, query, fingerprint, s)
  {
    var pool := FullPool(words, w, records, fingerprint, bonus);
    var artist := if w.artist == "" then None else Some(w.artist);
    OrdersAreStrictWeak();
    SortIsStable(Scores(words, query, fingerprint, artist, pool), Better);
    SameElements(Sort(Scores(words, query, fingerprint, artist, pool), Better),
                 Scores(words, query, fingerprint, artist, pool));
    var i := ScoredAt(words, query, fingerprint, artist, pool, s);
    PoolText(words, w, records, fingerprint, bonus);
    assert pool[i] in pool && s.rec == pool[i].0 && s.text == pool[i].1;
  }

  lemma ScoredAt(words: Words, query: Option<string>, fingerprint: Option<string>, artist: Option<string>, pool: Pool,
                 s: Scored)
    returns (i: nat)
    requires s in Scores(words, query, fingerprint, artist, pool)
    ensures i < |pool| && s == Score(words, query, fingerprint, artist, pool[i].0, pool[i].1)
    ensures s.rec == pool[i].0 && s.text == pool[i].1
  {
    i :| 0 <= i < |pool| && Scores(words, query, fingerprint, artist, pool)[i] == s;
  }

  lemma TopBeats(ranked: seq<Scored>, s: Scored)
    requires Ordered(ranked, Better) && s in ranked
    ensures s.combined <= ranked[0].combined
  {
    var j :| 0 <= j < |ranked| && ranked[j] == s;
    if j > 0 { assert !Better(ranked[j], ranked[0]); }
  }

  lemma RankedAreScores(words: Words, query: Option<string>, fingerprint: Option<string>, artist: Option<string>,
                        pool: Pool)
    ensures var scores := Scores(words, query, fingerprint, artist, pool);
            Ordered(Sort(scores, Better), Better) && forall x :: x in Sort(scores, Better) <==> x in scores
  {
    var scores := Scores(words, query, fingerprint, artist, pool);
    OrdersAreStrictWeak();
    SortIsStable(scores, Better);
    SameElements(Sort(scores, Better), scores);
  }

  /** The winner is a best candidate, and there is one as soon as any candidate
      reaches the threshold. */
  lemma AcceptedIff(words: Words, w: Wanted, records: seq<Recording>, query: Option<string>,
                    fingerprint: Option<string>, bonus: Option<Recording>)
    ensures var ranked := Ranking(words, w, records, query, fingerprint, bonus);
            var artist := if w.artist == "" then None else Some(w.artist);
            var pool := FullPool(words, w, records, fingerprint, bonus);
            && (forall p :: p in pool ==>
                  ranked != [] && Score(words, query, fingerprint, artist, p.0, p.1).combined <= ranked[0].combined)
            && (ranked != [] && ranked[0].combined >= THRESHOLD <==>
                  exists p :: p in pool && Score(words, query, fingerprint, artist, p.0, p.1).combined >= THRESHOLD)
  {
    var pool := FullPool(words, w, records, fingerprint, bonus);
    var artist := if w.artist == "" then None else Some(w.artist);
    var scores := Scores(words, query, fingerprint, artist, pool);
    var ranked := Ranking(words, w, records, query, fingerprint, bonus);
    RankedAreScores(words, query, fingerprint, artist, pool);
    forall p | p in pool
      ensures ranked != [] && Score(words, query, fingerprint, artist, p.0, p.1).combined <= ranked[0].combined
    {
      var i :| 0 <= i < |pool| && pool[i] == p;
      assert scores[i] in scores;
      TopBeats(ranked, scores[i]);
    }
    if ranked != [] {
      assert ranked[0] in ranked;
      var i := ScoredAt(words, query, fingerprint, artist, pool, ranked[0]);
      assert pool[i] in pool;
    }
  }

  /** Without a fingerprint hit a name too different cannot be made up for by the
      title, the query, the durations and the release group together, even when
      the gate is off because a name is empty. */
  lemma WinnerHasRightArtist(words: Words, w: Wanted, records: seq<Recording>, query: Option<string>,
                             fingerprint: Option<string>, bonus: Option<Recording>, s: Scored)
    requires words("") == {}
    requires s in Ranking(words, w, records, query, fingerprint, bonus)
    requires s.combined >= THRESHOLD && !s.fingerprint
    ensures Sim(words, w.artist, s.rec.artist) >= 0.34 && s.penalty == 0.0
    ensures Sim(words, w.title, s.rec.title) >= 0.3
  {
    RankedFromPool(words, w, records, query, fingerprint, bonus, s);
    TextBound(words, w, s.rec);
    CombinedBound(words, query, fingerprint, w, s);
    if w.artist == "" || s.rec.artist == "" { EmptyNameSim(words, w.artist, s.rec.artist); }
  }

  lemma TextBound(words: Words, w: Wanted, rec: Recording)
    ensures var bound := Sim(words, w.title, rec.title) * 0.5 + Sim(words, w.artist, rec.artist) * 0.4 + 0.2;
            TextSim(words, w, rec) <= bound && BaseSim(words, w, rec) <= bound
  {
    SimilarityBounds(words, w.title, w.artist, w.duration, rec.title, rec.artist, rec.duration);
  }

  /** Without a fingerprint the query adds at most a tenth, and the gate, where
      it applies, takes a quarter off. */
  lemma CombinedBound(words: Words, query: Option<string>, fingerprint: Option<string>, w: Wanted, s: Scored)
    requires s == Score(words, query, fingerprint, if w.artist == "" then None else Some(w.artist), s.rec, s.text)
    requires !s.fingerprint
    ensures s.combined <= s.text + 0.1 - s.penalty && (s.penalty == 0.0 || s.penalty == GATE_PENALTY)
    ensures w.artist != "" && s.rec.artist != "" ==>
              (s.penalty == 0.0 <==> Sim(words, w.artist, s.rec.artist) >= GATE_SIM)
    ensures w.artist == "" || s.rec.artist == "" ==> s.penalty == 0.0
  {
  }

  lemma EmptyNameSim(words: Words, a: string, b: string)
    requires words("") == {} && (a == "" || b == "")
    ensures Sim(words, a, b) == 0.0 || Sim(words, a, b) == 1.0
  {
    assert {} * words(b) == {} && words(a) * {} == {};
  }

  /** A fingerprint hit still needs a fair text score. */
  lemma FingerprintIsNotEnough(words: Words, w: Wanted, records: seq<Recording>, query: Option<string>,
                               fingerprint: Option<string>, bonus: Option<Recording>, s: Scored)
    requires s in Ranking(words, w, records, query, fingerprint, bonus) && s.combined >= THRESHOLD
    ensures s.text >= 0.6
    ensures !s.fingerprint ==> s.text >= 0.75
  {
    RankedFromPool(words, w, records, query, fingerprint, bonus, s);
  }

  /** A fingerprint hit is exempt from the gate: whatever its artist, it reaches
      the threshold exactly when text and query make 0.70. */
  lemma FingerprintAcceptsIff(words: Words, w: Wanted, records: seq<Recording>, query: Option<string>,
                              fingerprint: Option<string>, bonus: Option<Recording>, s: Scored)
    requires s in Ranking(words, w, records, query, fingerprint, bonus) && s.fingerprint
    ensures s.combined >= THRESHOLD <==> s.text + 0.10 * s.query >= 0.70
    ensures s.penalty == 0.0 && Some(s.rec.id) == fingerprint
  {
    RankedFromPool(words, w, records, query, fingerprint, bonus, s);
  }

  /** Without the penalty the gate's work is not done by the weights: a
      recording whose artist shares one word in four would be accepted. */
  lemma GateIsNeeded(words: Words)
    requires words("song") == {"song"}
    requires words("a b") == {"a", "b"} && words("b c d") == {"b", "c", "d"} && words("song b c d") == words("song")
    ensures var w := Wanted("song", "a b", Some(200), Some("g"));
            var rec := Recording("r", "song", "b c d", Some(200), Some("g"));
            var s := Score(words, Some("song"), None, Some("a b"), rec, TextSim(words, w, rec));
            Sim(words, "a b", "b c d") == 0.25 && s.combined + s.penalty >= THRESHOLD && s.combined < THRESHOLD
  {
    var shared, all := words("a b") * words("b c d"), words("a b") + words("b c d");
    assert shared == {"b"} && all == {"a", "b", "c", "d"};
    assert |shared| == 1 && |all| == 4;
    assert Sim(words, "a b", "b c d") == 0.25;
    assert "song" + " " + "b c d" == "song b c d";
    assert Sim(words, "song", "song b c d") == 1.0 && Sim(words, "song", "song") == 1.0;
  }
}
