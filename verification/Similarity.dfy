/** Track similarity from word overlap and durations. Scores are exact reals
    where the program has floats; `words` stands for normalising and splitting. */
module Similarity {
  import opened Prelude

  type Words = string -> set<string>

  const THRESHOLD: real := 0.85
  const TOLERANCE: int := 10

  function Jaccard(a: set<string>, b: set<string>): (j: real)
    ensures 0.0 <= j <= 1.0
    ensures j == 1.0 <==> a == b
    ensures j == 0.0 <==> a * b == {} && a + b != {}
  {
    if a == {} && b == {} then 1.0
    else if a == {} || b == {} then 0.0
    else
      OverlapSize(a, b);
      |a * b| as real / |a + b| as real
  }

  lemma OverlapSize(a: set<string>, b: set<string>)
    requires a != {} && b != {}
    ensures 0 <= |a * b| <= |a + b| && |a + b| > 0
    ensures |a * b| == |a + b| <==> a == b
    ensures |a * b| == 0 <==> a * b == {}
  {
    var u, v := a * b, a + b;
    assert v == u + (v - u);
    assert |v| == |u| + |v - u|;
    if |u| == |v| {
      assert v - u == {};
      assert a <= u && b <= u;
    }
    assert a <= v && v != {};
    if a == b { assert u == v; }
  }

  lemma JaccardSymmetric(a: set<string>, b: set<string>)
    ensures Jaccard(a, b) == Jaccard(b, a)
  {
    assert a * b == b * a && a + b == b + a;
  }

  /** Similarity of two titles, or of two artists. */
  function Sim(words: Words, a: string, b: string): real {
    Jaccard(words(a), words(b))
  }

  /** A missing duration and one of 0 are the same. */
  predicate Known(d: Option<int>) {
    d.Some? && d.value != 0
  }

  predicate FarApart(d: Option<int>, e: Option<int>) {
    Known(d) && Known(e) && (d.value - e.value > TOLERANCE || e.value - d.value > TOLERANCE)
  }

  function TrackSimilarity(words: Words, titleA: string, artistA: string, durA: Option<int>,
                           titleB: string, artistB: string, durB: Option<int>): real
  {
    var text := Sim(words, titleA, titleB) * 0.5 + Sim(words, artistA, artistB) * 0.4;
    var score :=
      if Known(durA) && Known(durB) then
        if FarApart(durA, durB) then Min(text, THRESHOLD - 0.01) else text + 0.1
      else text + 0.05;
    Min(score, 1.0)
  }

  /** Half the title's similarity, 0.4 of the artist's, and a tenth for lengths
      within ten seconds, or half of that where one is missing or 0; for lengths
      further apart the sum is cut off at 0.84 instead. */
  lemma TrackSimilarityIs(words: Words, tA: string, aA: string, dA: Option<int>, tB: string, aB: string,
                          dB: Option<int>)
    ensures var score := TrackSimilarity(words, tA, aA, dA, tB, aB, dB);
            var text := 0.5 * Jaccard(words(tA), words(tB)) + 0.4 * Jaccard(words(aA), words(aB));
            if dA.GetOr(0) == 0 || dB.GetOr(0) == 0 then score == text + 0.05
            else if -10 <= dA.value - dB.value <= 10 then score == text + 0.1
            else score == if text < 0.84 then text else 0.84
  {
  }

  predicate IsConfident(words: Words, titleA: string, artistA: string, durA: Option<int>,
                        titleB: string, artistB: string, durB: Option<int>, threshold: real)
  {
    TrackSimilarity(words, titleA, artistA, durA, titleB, artistB, durB) >= threshold
  }

  /** The weights bound the score from above; it is never outside the unit interval. */
  lemma SimilarityBounds(words: Words, tA: string, aA: string, dA: Option<int>, tB: string, aB: string, dB: Option<int>)
    ensures var s := TrackSimilarity(words, tA, aA, dA, tB, aB, dB);
            && 0.0 <= s <= 1.0
            && s <= Sim(words, tA, tB) * 0.5 + Sim(words, aA, aB) * 0.4 + 0.1
            && (!Known(dA) || !Known(dB) ==> s <= Sim(words, tA, tB) * 0.5 + Sim(words, aA, aB) * 0.4 + 0.05)
  {
  }

  lemma ConfidentIsSymmetric(words: Words, tA: string, aA: string, dA: Option<int>,
                             tB: string, aB: string, dB: Option<int>, threshold: real)
    ensures IsConfident(words, tA, aA, dA, tB, aB, dB, threshold)
            == IsConfident(words, tB, aB, dB, tA, aA, dA, threshold)
  {
    JaccardSymmetric(words(tA), words(tB));
    JaccardSymmetric(words(aA), words(aB));
  }

  /** Durations known and more than ten seconds apart rule a match out, however
      alike the names are; any threshold above 0.84 will do. */
  lemma FarApartIsNoMatch(words: Words, tA: string, aA: string, dA: Option<int>,
                          tB: string, aB: string, dB: Option<int>, threshold: real)
    requires FarApart(dA, dB) && threshold > 0.84
    ensures !IsConfident(words, tA, aA, dA, tB, aB, dB, threshold)
  {
  }

  /** And no lower threshold will: a recording and its namesake of another
      length reach 0.84 itself. */
  lemma FarApartBoundIff(words: Words, threshold: real)
    ensures (forall tA, aA, dA, tB, aB, dB :: FarApart(dA, dB) ==>
               !IsConfident(words, tA, aA, dA, tB, aB, dB, threshold)) <==> threshold > 0.84
  {
    if threshold > 0.84 {
      forall tA, aA, dA, tB, aB, dB | FarApart(dA, dB)
        ensures !IsConfident(words, tA, aA, dA, tB, aB, dB, threshold)
      {
        FarApartIsNoMatch(words, tA, aA, dA, tB, aB, dB, threshold);
      }
    } else {
      NamesakeReaches084(words);
      assert FarApart(Some(100), Some(111));
      assert IsConfident(words, "t", "a", Some(100), "t", "a", Some(111), threshold);
    }
  }

  lemma NamesakeReaches084(words: Words)
    ensures TrackSimilarity(words, "t", "a", Some(100), "t", "a", Some(111)) == 0.84
  {
    assert Sim(words, "t", "t") == 1.0 && Sim(words, "a", "a") == 1.0;
  }

  /** What a match at the default threshold says about each name on its own. */
  lemma ConfidentNeedsBoth(words: Words, tA: string, aA: string, dA: Option<int>,
                           tB: string, aB: string, dB: Option<int>)
    requires IsConfident(words, tA, aA, dA, tB, aB, dB, THRESHOLD)
    ensures Sim(words, tA, tB) >= 0.7 && Sim(words, aA, aB) >= 0.625
    ensures !Known(dA) || !Known(dB) ==> Sim(words, tA, tB) >= 0.8 && Sim(words, aA, aB) >= 0.75
  {
    SimilarityBounds(words, tA, aA, dA, tB, aB, dB);
  }

  /** Equal names match unless the durations are known and far apart. */
  lemma SameNamesMatchIff(words: Words, tA: string, aA: string, dA: Option<int>,
                          tB: string, aB: string, dB: Option<int>)
    requires words(tA) == words(tB) && words(aA) == words(aB)
    ensures IsConfident(words, tA, aA, dA, tB, aB, dB, THRESHOLD) <==> !FarApart(dA, dB)
  {
  }
}
