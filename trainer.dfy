/**
 The threshold step of `markovTrain` and the training pipeline as a whole:
 count the corpus, normalise, score the good and the bad calibration lines
 against the normalised table, and put the threshold halfway between the
 lowest good score and the highest bad score. As written, `markovTrain`
 then returns the raw counts rather than the normalised table.
 */
module Trainer {
  import opened Text
  import opened Tokenizer
  import opened Table
  import opened Scorer

  /** The least element, defined by recursion on the tail. */
  function SeqMin(s: seq<real>): (m: real)
    requires |s| > 0
    ensures m in s
    ensures forall i :: 0 <= i < |s| ==> m <= s[i]
    decreases |s|
  {
    if |s| == 1 then s[0]
    else
      var rest := SeqMin(s[1..]);
      if s[0] < rest then s[0] else rest
  }

  /** The greatest element, defined by recursion on the tail. */
  function SeqMax(s: seq<real>): (m: real)
    requires |s| > 0
    ensures m in s
    ensures forall i :: 0 <= i < |s| ==> s[i] <= m
    decreases |s|
  {
    if |s| == 1 then s[0]
    else
      var rest := SeqMax(s[1..]);
      if s[0] > rest then s[0] else rest
  }

  /** The loop that finds the lowest good score, starting from the first. */
  method MinGood(goodProbs: seq<real>) returns (minGood: real)
    requires |goodProbs| > 0
    ensures minGood == SeqMin(goodProbs)
  {
    minGood := goodProbs[0];
    for i := 0 to |goodProbs|
      invariant minGood in goodProbs
      invariant forall j :: 0 <= j < i ==> minGood <= goodProbs[j]
    {
      if goodProbs[i] < minGood {
        minGood := goodProbs[i];
      }
    }
    var m := SeqMin(goodProbs);
    assert minGood <= m && m <= minGood;
  }

  /** The loop that finds the highest bad score, starting from the first. */
  method MaxBad(badProbs: seq<real>) returns (maxBad: real)
    requires |badProbs| > 0
    ensures maxBad == SeqMax(badProbs)
  {
    maxBad := badProbs[0];
    for i := 0 to |badProbs|
      invariant maxBad in badProbs
      invariant forall j :: 0 <= j < i ==> badProbs[j] <= maxBad
    {
      if badProbs[i] > maxBad {
        maxBad := badProbs[i];
      }
    }
    var m := SeqMax(badProbs);
    assert maxBad <= m && m <= maxBad;
  }

  /** `(minGood + maxBad) / 2`: it lies between the two, whichever is larger. */
  function Midpoint(minGood: real, maxBad: real): (t: real)
    ensures minGood <= maxBad ==> minGood <= t <= maxBad
    ensures maxBad <= minGood ==> maxBad <= t <= minGood
    ensures maxBad < minGood ==> maxBad < t < minGood
  {
    (minGood + maxBad) / 2.0
  }

  /** The threshold calibration computes from the good and bad lines. */
  function CalibratedThreshold(good: seq<string>, bad: seq<string>, probs: Matrix, n: nat): real
    requires n >= 1
    requires |KeptScores(good, probs, n)| > 0 && |KeptScores(bad, probs, n)| > 0
  {
    Midpoint(SeqMin(KeptScores(good, probs, n)), SeqMax(KeptScores(bad, probs, n)))
  }

  /** Adding a calibration score can keep or lower the lowest good score, never raise it. */
  lemma MinGoodMonotone(s: seq<real>, x: real)
    requires |s| > 0
    ensures SeqMin(s + [x]) <= SeqMin(s)
  {
    var m := SeqMin(s);
    var k :| 0 <= k < |s| && s[k] == m;
    assert (s + [x])[k] == m;
  }

  /**
   The threshold step of `markovTrain` (its calibration files given as
   lines): score both sets, take the lowest good and highest bad score, and
   return their midpoint. Go indexes both score lists at 0, so neither may be
   empty.
   */
  method Calibrate(good: seq<string>, bad: seq<string>, probs: Matrix, n: nat) returns (threshold: real)
    requires TableFor(probs, n)
    requires |KeptScores(good, probs, n)| > 0 && |KeptScores(bad, probs, n)| > 0
    ensures threshold == CalibratedThreshold(good, bad, probs, n)
  {
    var goodProbs := CalculateProbabilities(good, probs, n);
    var badProbs := CalculateProbabilities(bad, probs, n);
    var minGood := MinGood(goodProbs);
    var maxBad := MaxBad(badProbs);
    threshold := (minGood + maxBad) / 2.0;
  }

  // ---------------------------------------------------------------------------
  // The whole of markovTrain

  /** The table of counts built from the corpus lines. */
  function TrainedCounts(corpus: seq<string>, n: nat): Matrix
    requires n >= 1
  {
    CountGrams(CorpusNGrams(corpus, n), n)
  }

  /** The table of log-probabilities built from the corpus lines. */
  ghost function TrainedProbs(corpus: seq<string>, n: nat, log: real -> real): Matrix
    requires n >= 1
  {
    CountGramsShape(CorpusNGrams(corpus, n), n);
    Normalized(TrainedCounts(corpus, n), log)
  }

  /** A corpus with at least one n-gram gives tables the scorer accepts. */
  lemma TrainedTablesFor(corpus: seq<string>, n: nat, log: real -> real)
    requires n >= 1 && CorpusNGrams(corpus, n) != []
    ensures CountTable(TrainedCounts(corpus, n), n)
    ensures TableFor(TrainedCounts(corpus, n), n)
    ensures TableFor(TrainedProbs(corpus, n, log), n)
  {
    var grams := CorpusNGrams(corpus, n);
    CountGramsShape(grams, n);
    CountKeys(grams, n, grams[0][..n - 1]);
  }

  /**
   Go's `markovTrain` with its three files given as lines. It returns the
   threshold, computed on the normalised table, together with the raw counts.
   */
  method MarkovTrain(corpus: seq<string>, good: seq<string>, bad: seq<string>, n: nat, log: real -> real)
      returns (threshold: real, counts: Matrix)
    requires n >= 1 && CorpusNGrams(corpus, n) != []
    requires |KeptScores(good, TrainedProbs(corpus, n, log), n)| > 0
    requires |KeptScores(bad, TrainedProbs(corpus, n, log), n)| > 0
    ensures counts == TrainedCounts(corpus, n)
    ensures threshold == CalibratedThreshold(good, bad, TrainedProbs(corpus, n, log), n)
  {
    counts := CountTransitions(corpus, n);
    TrainedTablesFor(corpus, n, log);
    var probs := Normalize(counts, log);
    threshold := Calibrate(good, bad, probs, n);
  }

  /** Training that returns the normalised table the threshold was computed on. */
  method TrainModel(corpus: seq<string>, good: seq<string>, bad: seq<string>, n: nat, log: real -> real)
      returns (threshold: real, probs: Matrix)
    requires n >= 1 && CorpusNGrams(corpus, n) != []
    requires |KeptScores(good, TrainedProbs(corpus, n, log), n)| > 0
    requires |KeptScores(bad, TrainedProbs(corpus, n, log), n)| > 0
    ensures probs == TrainedProbs(corpus, n, log)
    ensures threshold == CalibratedThreshold(good, bad, probs, n)
  {
    var counts := CountTransitions(corpus, n);
    TrainedTablesFor(corpus, n, log);
    probs := Normalize(counts, log);
    threshold := Calibrate(good, bad, probs, n);
  }

  // ---------------------------------------------------------------------------
  // What the threshold means

  /**
   When the calibration sets separate (every good score above every bad
   score), classifying against the table the threshold came from accepts
   every good line that scores and rejects every bad line.
   */
  lemma SeparatedCalibrationClassifies(good: seq<string>, bad: seq<string>, probs: Matrix, n: nat)
    requires TableFor(probs, n)
    requires |KeptScores(good, probs, n)| > 0 && |KeptScores(bad, probs, n)| > 0
    requires SeqMax(KeptScores(bad, probs, n)) < SeqMin(KeptScores(good, probs, n))
    ensures forall i :: 0 <= i < |good| && ScoreOf(TrimSpace(good[i]), probs, n).Scored?
              ==> MarkovCheck(TrimSpace(good[i]), CalibratedThreshold(good, bad, probs, n), probs, n)
    ensures forall j :: 0 <= j < |bad|
              ==> !MarkovCheck(TrimSpace(bad[j]), CalibratedThreshold(good, bad, probs, n), probs, n)
  {
    var t := CalibratedThreshold(good, bad, probs, n);
    var goods, bads := KeptScores(good, probs, n), KeptScores(bad, probs, n);
    forall i | 0 <= i < |good| && ScoreOf(TrimSpace(good[i]), probs, n).Scored?
      ensures MarkovCheck(TrimSpace(good[i]), t, probs, n)
    {
      KeptScoresContain(good, probs, n, i);
      var k :| 0 <= k < |goods| && goods[k] == ScoreOf(TrimSpace(good[i]), probs, n).value;
    }
    forall j | 0 <= j < |bad|
      ensures !MarkovCheck(TrimSpace(bad[j]), t, probs, n)
    {
      if ScoreOf(TrimSpace(bad[j]), probs, n).Scored? {
        KeptScoresContain(bad, probs, n, j);
        var k :| 0 <= k < |bads| && bads[k] == ScoreOf(TrimSpace(bad[j]), probs, n).value;
      }
    }
  }

  /** Every entry of a table is at most `b`. */
  predicate EntriesAtMost(m: Matrix, b: real)
  {
    forall ctx, c :: ctx in m && c in m[ctx] ==> m[ctx][c] <= b
  }

  /** Every entry of a table is at least `b`. */
  predicate EntriesAtLeast(m: Matrix, b: real)
  {
    forall ctx, c :: ctx in m && c in m[ctx] ==> m[ctx][c] >= b
  }

  /** With no positive entry, no score is positive. */
  lemma {:induction false} ScoreAtMostZero(grams: seq<string>, probs: Matrix)
    requires NonEmptyGrams(grams) && EntriesAtMost(probs, 0.0)
    requires ScoreGrams(grams, probs).Scored?
    ensures ScoreGrams(grams, probs).value <= 0.0
    decreases |grams|
  {
    if grams != [] {
      ScoreAtMostZero(grams[..|grams| - 1], probs);
    }
  }

  /** With every entry at least 1, a string's score is at least its number of n-grams. */
  lemma {:induction false} ScoreAtLeastLength(grams: seq<string>, probs: Matrix)
    requires NonEmptyGrams(grams) && EntriesAtLeast(probs, 1.0)
    requires ScoreGrams(grams, probs).Scored?
    ensures ScoreGrams(grams, probs).value >= |grams| as real
    decreases |grams|
  {
    if grams != [] {
      ScoreAtLeastLength(grams[..|grams| - 1], probs);
    }
  }

  /** The trained log-probability table has no positive entry. */
  lemma TrainedProbsNonPositive(corpus: seq<string>, n: nat, log: real -> real)
    requires n >= 1
    requires forall x :: 0.0 < x <= 1.0 ==> log(x) <= 0.0
    ensures EntriesAtMost(TrainedProbs(corpus, n, log), 0.0)
  {
    var counts := TrainedCounts(corpus, n);
    CountGramsShape(CorpusNGrams(corpus, n), n);
    forall ctx, c | ctx in counts && c in counts[ctx]
      ensures Normalized(counts, log)[ctx][c] <= 0.0
    {
      LogEntriesNonPositive(counts, log, ctx, c);
    }
  }

  /** The calibrated threshold is at most 0: every score on a log table is. */
  lemma ThresholdAtMostZero(good: seq<string>, bad: seq<string>, probs: Matrix, n: nat)
    requires n >= 1 && EntriesAtMost(probs, 0.0)
    requires |KeptScores(good, probs, n)| > 0 && |KeptScores(bad, probs, n)| > 0
    ensures CalibratedThreshold(good, bad, probs, n) <= 0.0
  {
    var lo, hi := SeqMin(KeptScores(good, probs, n)), SeqMax(KeptScores(bad, probs, n));
    KeptScoresFromLines(good, probs, n, lo);
    var i :| 0 <= i < |good| && ScoreOf(TrimSpace(good[i]), probs, n) == Scored(lo);
    ScoreAtMostZero(NGrams(TrimSpace(good[i]), n), probs);
    KeptScoresFromLines(bad, probs, n, hi);
    var j :| 0 <= j < |bad| && ScoreOf(TrimSpace(bad[j]), probs, n) == Scored(hi);
    ScoreAtMostZero(NGrams(TrimSpace(bad[j]), n), probs);
  }

  /**
   As written, `markovTrain` hands back the counts, and classifying against
   them accepts every string of at least n characters whose n-grams all occur
   in the corpus, whatever the calibration lines were: its score is at least
   its number of n-grams, the threshold at most 0.
   */
  lemma CountsAcceptEveryCoveredString(corpus: seq<string>, good: seq<string>, bad: seq<string>,
                                       n: nat, log: real -> real, input: string)
    requires n >= 1 && CorpusNGrams(corpus, n) != []
    requires forall x :: 0.0 < x <= 1.0 ==> log(x) <= 0.0
    requires |KeptScores(good, TrainedProbs(corpus, n, log), n)| > 0
    requires |KeptScores(bad, TrainedProbs(corpus, n, log), n)| > 0
    requires |input| >= n
    requires ScoreOf(input, TrainedCounts(corpus, n), n).Scored?
    ensures TableFor(TrainedCounts(corpus, n), n)
    ensures MarkovCheck(input, CalibratedThreshold(good, bad, TrainedProbs(corpus, n, log), n),
                        TrainedCounts(corpus, n), n)
  {
    var probs := TrainedProbs(corpus, n, log);
    TrainedProbsNonPositive(corpus, n, log);
    ThresholdAtMostZero(good, bad, probs, n);
    TrainedTablesFor(corpus, n, log);
    ScoreAtLeastLength(NGrams(input, n), TrainedCounts(corpus, n));
  }
}
