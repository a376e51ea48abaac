/**
 Scoring a string against a transition table (`averageTransitionProbability`),
 scoring every line of a file (`calculateProbabilities`) and the yes/no
 decision (`markovCheck`). Despite its name the score is the plain sum of the
 table entries of the string's n-grams; any n-gram whose context or next
 character is missing makes the whole string unscorable.
 */
module Scorer {
  import opened Text
  import opened Tokenizer
  import opened Table

  /** The result of scoring: the sum, or the first n-gram that has no entry. */
  datatype Score = Scored(value: real) | NoProbability(gram: string)

  /**
   Go infers n from the length of some key plus one. Passing n instead is
   faithful when the table is non-empty and every key has length n - 1; then
   n is at least 1.
   */
  predicate TableFor(probs: Matrix, n: nat)
    ensures TableFor(probs, n) ==> n >= 1
  {
    && probs != map[]
    && (forall ctx :: ctx in probs ==> |ctx| == n - 1)
  }

  /** Both the context and the next character of `g` have an entry. */
  predicate Known(probs: Matrix, g: string)
    requires |g| >= 1
  {
    g[..|g| - 1] in probs && g[|g| - 1] in probs[g[..|g| - 1]]
  }

  function Entry(probs: Matrix, g: string): real
    requires |g| >= 1 && Known(probs, g)
  {
    probs[g[..|g| - 1]][g[|g| - 1]]
  }

  predicate NonEmptyGrams(grams: seq<string>)
  {
    forall i :: 0 <= i < |grams| ==> |grams[i]| >= 1
  }

  /**
   Scoring n-grams left to right, stopping at the first unknown one. A failure
   names one of the n-grams, and that n-gram has no entry.
   */
  function ScoreGrams(grams: seq<string>, probs: Matrix): (r: Score)
    requires NonEmptyGrams(grams)
    ensures r.NoProbability? ==> r.gram in grams && |r.gram| >= 1 && !Known(probs, r.gram)
    decreases |grams|
  {
    if grams == [] then Scored(0.0)
    else
      var g := grams[|grams| - 1];
      match ScoreGrams(grams[..|grams| - 1], probs)
      case NoProbability(first) => NoProbability(first)
      case Scored(v) => if Known(probs, g) then Scored(v + Entry(probs, g)) else NoProbability(g)
  }

  function ScoreOf(input: string, probs: Matrix, n: nat): Score
    requires n >= 1
  {
    ScoreGrams(NGrams(input, n), probs)
  }

  /** Once scoring has failed, later n-grams do not change the outcome. */
  lemma {:induction false} FailureSticks(grams: seq<string>, probs: Matrix, i: nat)
    requires NonEmptyGrams(grams) && i <= |grams|
    requires ScoreGrams(grams[..i], probs).NoProbability?
    ensures ScoreGrams(grams, probs) == ScoreGrams(grams[..i], probs)
    decreases |grams| - i
  {
    if i < |grams| {
      assert grams[..i + 1][..i] == grams[..i];
      FailureSticks(grams, probs, i + 1);
    } else {
      assert grams[..i] == grams;
    }
  }

  /** Scoring one more n-gram: fail on it if it is unknown, otherwise add its entry. */
  lemma ScoreStep(grams: seq<string>, probs: Matrix, i: nat, v: real)
    requires NonEmptyGrams(grams) && i < |grams|
    requires ScoreGrams(grams[..i], probs) == Scored(v)
    ensures ScoreGrams(grams[..i + 1], probs)
         == if Known(probs, grams[i]) then Scored(v + Entry(probs, grams[i])) else NoProbability(grams[i])
  {
    assert grams[..i + 1][..i] == grams[..i];
  }

  /** Go's `averageTransitionProbability`, with n passed in. */
  method AverageTransitionProbability(input: string, probs: Matrix, n: nat) returns (r: Score)
    requires TableFor(probs, n)
    ensures r == ScoreOf(input, probs, n)
  {
    var grams := NGram(input, n);
    r := SumTransitions(grams, probs, n);
  }

  /** The loop of `averageTransitionProbability`: add up entries, return at the first missing one. */
  method SumTransitions(grams: seq<string>, probs: Matrix, n: nat) returns (r: Score)
    requires n >= 1 && AllOfLength(grams, n)
    ensures r == ScoreGrams(grams, probs)
  {
    var logProb := 0.0;
    for i := 0 to |grams|
      invariant ScoreGrams(grams[..i], probs) == Scored(logProb)
    {
      var g := grams[i];
      var bigram := g[..n - 1];
      var nextChar := g[n - 1];
      ScoreStep(grams, probs, i, logProb);
      if bigram in probs {
        if nextChar in probs[bigram] {
          logProb := logProb + probs[bigram][nextChar];
        } else {
          FailureSticks(grams, probs, i + 1);
          return NoProbability(g);
        }
      } else {
        FailureSticks(grams, probs, i + 1);
        return NoProbability(g);
      }
    }
    assert grams[..|grams|] == grams;
    return Scored(logProb);
  }

  /** The sum of the entries of `grams`, added from the front. */
  function EntrySum(grams: seq<string>, probs: Matrix): real
    requires NonEmptyGrams(grams)
    requires forall i :: 0 <= i < |grams| ==> Known(probs, grams[i])
    decreases |grams|
  {
    if grams == [] then 0.0 else Entry(probs, grams[0]) + EntrySum(grams[1..], probs)
  }

  lemma {:induction false} EntrySumSnoc(grams: seq<string>, g: string, probs: Matrix)
    requires NonEmptyGrams(grams) && |g| >= 1 && Known(probs, g)
    requires forall i :: 0 <= i < |grams| ==> Known(probs, grams[i])
    ensures EntrySum(grams + [g], probs) == EntrySum(grams, probs) + Entry(probs, g)
    decreases |grams|
  {
    if grams != [] {
      assert (grams + [g])[1..] == grams[1..] + [g];
      EntrySumSnoc(grams[1..], g, probs);
    }
  }

  /** When every n-gram has an entry, the score is the sum of those entries. */
  lemma {:induction false} AllKnownScoresSum(grams: seq<string>, probs: Matrix)
    requires NonEmptyGrams(grams)
    requires forall i :: 0 <= i < |grams| ==> Known(probs, grams[i])
    ensures ScoreGrams(grams, probs) == Scored(EntrySum(grams, probs))
    decreases |grams|
  {
    if grams != [] {
      var init, g := grams[..|grams| - 1], grams[|grams| - 1];
      AllKnownScoresSum(init, probs);
      EntrySumSnoc(init, g, probs);
      assert init + [g] == grams;
    }
  }

  /** Scoring fails on the first n-gram without an entry, and names it. */
  lemma {:induction false} FirstUnknownFails(grams: seq<string>, probs: Matrix, i: nat)
    requires NonEmptyGrams(grams) && i < |grams|
    requires !Known(probs, grams[i])
    requires forall j :: 0 <= j < i ==> Known(probs, grams[j])
    ensures ScoreGrams(grams, probs) == NoProbability(grams[i])
  {
    var prefix := grams[..i];
    AllKnownScoresSum(prefix, probs);
    assert grams[..i + 1][..i] == prefix;
    FailureSticks(grams, probs, i + 1);
  }

  /** Scoring fails exactly when some n-gram has no entry. */
  lemma ScoreFailsIffUnknown(grams: seq<string>, probs: Matrix)
    requires NonEmptyGrams(grams)
    ensures ScoreGrams(grams, probs).NoProbability?
        <==> exists i :: 0 <= i < |grams| && !Known(probs, grams[i])
  {
    if forall i :: 0 <= i < |grams| ==> Known(probs, grams[i]) {
      AllKnownScoresSum(grams, probs);
    } else {
      var i := FirstUnknown(grams, probs);
      FirstUnknownFails(grams, probs, i);
    }
  }

  /** The least index of an n-gram without an entry. */
  lemma FirstUnknown(grams: seq<string>, probs: Matrix) returns (i: nat)
    requires NonEmptyGrams(grams)
    requires exists k :: 0 <= k < |grams| && !Known(probs, grams[k])
    ensures i < |grams| && !Known(probs, grams[i])
    ensures forall j :: 0 <= j < i ==> Known(probs, grams[j])
  {
    i := 0;
    while Known(probs, grams[i])
      invariant i < |grams|
      invariant forall j :: 0 <= j < i ==> Known(probs, grams[j])
      decreases |grams| - i
    {
      i := i + 1;
    }
  }

  /** A string shorter than n has no n-grams and scores 0, without error. */
  lemma ShortInputScoresZero(input: string, probs: Matrix, n: nat)
    requires n >= 1 && |input| < n
    ensures ScoreOf(input, probs, n) == Scored(0.0)
  {
  }

  // ---------------------------------------------------------------------------
  // calculateProbabilities

  /** The values of the successful outcomes, in order; failures are skipped. */
  function Collect(outcomes: seq<Score>): seq<real>
    decreases |outcomes|
  {
    if outcomes == [] then []
    else
      Collect(outcomes[..|outcomes| - 1])
        + (match outcomes[|outcomes| - 1] case Scored(v) => [v] case NoProbability(_) => [])
  }

  /** The outcome of scoring each trimmed line. */
  function LineScores(lines: seq<string>, probs: Matrix, n: nat): (r: seq<Score>)
    requires n >= 1
    ensures |r| == |lines|
  {
    seq(|lines|, i requires 0 <= i < |lines| => ScoreOf(TrimSpace(lines[i]), probs, n))
  }

  /** The scores `calculateProbabilities` collects: one per line that scores, in line order. */
  function KeptScores(lines: seq<string>, probs: Matrix, n: nat): seq<real>
    requires n >= 1
  {
    Collect(LineScores(lines, probs, n))
  }

  /** Go's `calculateProbabilities` over lines already read from a file. */
  method CalculateProbabilities(lines: seq<string>, probs: Matrix, n: nat) returns (outputProbs: seq<real>)
    requires TableFor(probs, n)
    ensures outputProbs == KeptScores(lines, probs, n)
  {
    ghost var outcomes := LineScores(lines, probs, n);
    outputProbs := [];
    for i := 0 to |lines|
      invariant outputProbs == Collect(outcomes[..i])
    {
      var line := TrimSpace(lines[i]);
      var prob := AverageTransitionProbability(line, probs, n);
      assert outcomes[i] == prob;
      CollectStep(outcomes, i);
      if prob.NoProbability? {
        continue;
      }
      outputProbs := outputProbs + [prob.value];
    }
    assert outcomes[..|lines|] == outcomes;
  }

  /** Collecting one more outcome appends its value, or nothing for a failure. */
  lemma CollectStep(outcomes: seq<Score>, i: nat)
    requires i < |outcomes|
    ensures Collect(outcomes[..i + 1])
         == Collect(outcomes[..i]) + (if outcomes[i].Scored? then [outcomes[i].value] else [])
  {
    assert outcomes[..i + 1][..i] == outcomes[..i];
  }

  /** Collecting distributes over concatenation: the order of the lines is kept. */
  lemma {:induction false} CollectAppend(a: seq<Score>, b: seq<Score>)
    ensures Collect(a + b) == Collect(a) + Collect(b)
    decreases |b|
  {
    if b == [] {
      assert a + b == a;
    } else {
      var init := b[..|b| - 1];
      assert (a + b)[..|a + b| - 1] == a + init;
      CollectAppend(a, init);
    }
  }

  /** Every successful outcome is collected. */
  lemma {:induction false} CollectContains(outcomes: seq<Score>, i: nat)
    requires i < |outcomes| && outcomes[i].Scored?
    ensures outcomes[i].value in Collect(outcomes)
    decreases |outcomes|
  {
    var init := outcomes[..|outcomes| - 1];
    if i < |init| {
      CollectContains(init, i);
      assert init[i] == outcomes[i];
    }
  }

  /** Every collected value comes from a successful outcome. */
  lemma {:induction false} CollectFrom(outcomes: seq<Score>, v: real)
    requires v in Collect(outcomes)
    ensures exists i :: 0 <= i < |outcomes| && outcomes[i] == Scored(v)
    decreases |outcomes|
  {
    var init := outcomes[..|outcomes| - 1];
    if v in Collect(init) {
      CollectFrom(init, v);
      var i :| 0 <= i < |init| && init[i] == Scored(v);
      assert outcomes[i] == init[i];
    }
  }

  /** Collecting keeps one value per successful outcome. */
  lemma {:induction false} CollectSize(outcomes: seq<Score>)
    ensures |Collect(outcomes)| == |set i | 0 <= i < |outcomes| && outcomes[i].Scored?|
    decreases |outcomes|
  {
    if outcomes != [] {
      var k := |outcomes| - 1;
      var init := outcomes[..k];
      CollectSize(init);
      var before := set i | 0 <= i < k && init[i].Scored?;
      var after := set i | 0 <= i < |outcomes| && outcomes[i].Scored?;
      assert after == before + (if outcomes[k].Scored? then {k} else {});
    }
  }

  /** A line whose trimmed text scores contributes its score to `KeptScores`. */
  lemma KeptScoresContain(lines: seq<string>, probs: Matrix, n: nat, i: nat)
    requires n >= 1 && i < |lines|
    requires ScoreOf(TrimSpace(lines[i]), probs, n).Scored?
    ensures ScoreOf(TrimSpace(lines[i]), probs, n).value in KeptScores(lines, probs, n)
  {
    CollectContains(LineScores(lines, probs, n), i);
  }

  /** Every value of `KeptScores` is the score of some trimmed line. */
  lemma KeptScoresFromLines(lines: seq<string>, probs: Matrix, n: nat, v: real)
    requires n >= 1
    requires v in KeptScores(lines, probs, n)
    ensures exists i :: 0 <= i < |lines| && ScoreOf(TrimSpace(lines[i]), probs, n) == Scored(v)
  {
    CollectFrom(LineScores(lines, probs, n), v);
  }

  // ---------------------------------------------------------------------------
  // markovCheck

  /**
   Go's `markovCheck`: an unscorable string is rejected, otherwise the score
   must exceed the threshold. A string shorter than n scores 0, so it is
   accepted exactly when the threshold is negative. Go infers n from the
   table and panics on an empty one, so the table must suit n.
   */
  function MarkovCheck(input: string, threshold: real, probs: Matrix, n: nat): (accepted: bool)
    requires TableFor(probs, n)
    ensures ScoreOf(input, probs, n).NoProbability? ==> !accepted
    ensures ScoreOf(input, probs, n).Scored? ==> (accepted <==> ScoreOf(input, probs, n).value > threshold)
    ensures |input| < n ==> (accepted <==> threshold < 0.0)
  {
    match ScoreOf(input, probs, n)
    case NoProbability(_) => false
    case Scored(v) => v > threshold
  }

  /**
   A string is accepted exactly when every one of its n-grams has an entry
   and the sum of those entries is strictly above the threshold.
   */
  lemma MarkovCheckMeaning(input: string, threshold: real, probs: Matrix, n: nat)
    requires TableFor(probs, n)
    ensures MarkovCheck(input, threshold, probs, n)
        <==> (forall i :: 0 <= i < |NGrams(input, n)| ==> Known(probs, NGrams(input, n)[i]))
             && EntrySumIfKnown(NGrams(input, n), probs) > threshold
  {
    var grams := NGrams(input, n);
    ScoreFailsIffUnknown(grams, probs);
    if forall i :: 0 <= i < |grams| ==> Known(probs, grams[i]) {
      AllKnownScoresSum(grams, probs);
    }
  }

  /** EntrySum where every n-gram is known, 0 otherwise. */
  function EntrySumIfKnown(grams: seq<string>, probs: Matrix): real
    requires NonEmptyGrams(grams)
  {
    if forall i :: 0 <= i < |grams| ==> Known(probs, grams[i]) then EntrySum(grams, probs) else 0.0
  }

  /** A string accepted at some threshold is accepted at every lower threshold. */
  lemma MarkovCheckMonotone(input: string, threshold: real, lower: real, probs: Matrix, n: nat)
    requires TableFor(probs, n) && lower <= threshold
    requires MarkovCheck(input, threshold, probs, n)
    ensures MarkovCheck(input, lower, probs, n)
  {
  }

  /** A score exactly at the threshold is rejected: the comparison is strict. */
  lemma ThresholdItselfRejected(input: string, probs: Matrix, n: nat)
    requires TableFor(probs, n) && ScoreOf(input, probs, n).Scored?
    ensures !MarkovCheck(input, ScoreOf(input, probs, n).value, probs, n)
  {
  }
}
