/**
 The transition table (Go's `NGramMatrix`) and the two loops of `markovTrain`
 that build it: counting every n-gram of the padded corpus lines under
 context = its first n-1 characters and next = its last one, then turning each
 row into count/total and passing that through the natural logarithm.
 */
module Table {
  import opened Text
  import opened Tokenizer
  import opened MapSums

  /** Context -> next character -> count, ratio or log-probability. */
  type Matrix = map<string, map<char, real>>

  /** The value stored for a transition, or Go's zero value when absent. */
  function Lookup(m: Matrix, ctx: string, c: char): real
  {
    if ctx in m then Get(m[ctx], c) else 0.0
  }

  /**
   A training line as it is counted: trimmed and padded with two spaces on
   each side. The padding is white space only, so trimming the padded line
   gives back the trimmed line.
   */
  function Pad(line: string): (r: string)
    ensures |r| == |TrimSpace(line)| + 4
    ensures TrimSpace(r) == TrimSpace(line)
  {
    TrimSpaceOfPadded(TrimSpace(line));
    "  " + TrimSpace(line) + "  "
  }

  /** Every n-gram of the padded corpus lines, line by line, in order. */
  function CorpusNGrams(lines: seq<string>, n: nat): (r: seq<string>)
    ensures AllOfLength(r, n)
    decreases |lines|
  {
    if lines == [] then []
    else
      CorpusNGrams(lines[..|lines| - 1], n) + NGrams(Pad(lines[|lines| - 1]), n)
  }

  /**
   Counts one n-gram: `counts[context][next]++`, creating the row if needed.
   The n-gram's context becomes a key and its entry goes up by one
   (`AddGramOthersUnchanged`: every other entry stays as it was).
   */
  function AddGram(m: Matrix, g: string): (r: Matrix)
    requires |g| >= 1
    ensures r.Keys == m.Keys + {g[..|g| - 1]}
    ensures Lookup(r, g[..|g| - 1], g[|g| - 1]) == Lookup(m, g[..|g| - 1], g[|g| - 1]) + 1.0
  {
    var ctx, c := g[..|g| - 1], g[|g| - 1];
    var row := if ctx in m then m[ctx] else map[];
    m[ctx := row[c := Get(row, c) + 1.0]]
  }

  /** Counting one n-gram leaves every other entry as it was. */
  lemma AddGramOthersUnchanged(m: Matrix, g: string, ctx: string, c: char)
    requires |g| >= 1
    requires ctx != g[..|g| - 1] || c != g[|g| - 1]
    ensures Lookup(AddGram(m, g), ctx, c) == Lookup(m, ctx, c)
  {
  }

  /** The table after counting `grams` in order. */
  function CountGrams(grams: seq<string>, n: nat): Matrix
    requires n >= 1 && AllOfLength(grams, n)
    decreases |grams|
  {
    if grams == [] then map[]
    else AddGram(CountGrams(grams[..|grams| - 1], n), grams[|grams| - 1])
  }

  /** How many of `grams` are exactly `g`. */
  function Occurrences(grams: seq<string>, g: string): nat
    decreases |grams|
  {
    if grams == [] then 0
    else Occurrences(grams[..|grams| - 1], g) + (if grams[|grams| - 1] == g then 1 else 0)
  }

  /**
   The shape of a table of counts for n-grams: contexts of length n-1, no
   empty row, every stored count at least 1.
   */
  predicate CountTable(m: Matrix, n: nat)
  {
    forall ctx :: ctx in m ==>
      |ctx| == n - 1 && m[ctx] != map[] && forall c :: c in m[ctx] ==> m[ctx][c] >= 1.0
  }

  lemma CountGramsSnoc(grams: seq<string>, g: string, n: nat)
    requires n >= 1 && AllOfLength(grams, n) && |g| == n
    ensures CountGrams(grams + [g], n) == AddGram(CountGrams(grams, n), g)
  {
    assert (grams + [g])[..|grams|] == grams;
  }

  lemma CorpusSnoc(lines: seq<string>, n: nat, i: nat)
    requires i < |lines|
    ensures CorpusNGrams(lines[..i + 1], n) == CorpusNGrams(lines[..i], n) + NGrams(Pad(lines[i]), n)
  {
    assert lines[..i + 1][..i] == lines[..i];
  }

  /** The inner counting loop: every n-gram of one padded line, in order. */
  method CountLine(counts: Matrix, grams: seq<string>, n: nat, ghost done: seq<string>)
      returns (counts': Matrix)
    requires n >= 1 && AllOfLength(done, n) && AllOfLength(grams, n)
    requires counts == CountGrams(done, n)
    ensures counts' == CountGrams(done + grams, n)
  {
    counts' := counts;
    assert done + grams[..0] == done;
    for gi := 0 to |grams|
      invariant counts' == CountGrams(done + grams[..gi], n)
    {
      var g := grams[gi];
      counts' := Increment(counts', g, n);
      CountGramsSnoc(done + grams[..gi], g, n);
      assert done + grams[..gi + 1] == done + grams[..gi] + [g];
    }
    assert grams[..|grams|] == grams;
  }

  /** The body of the inner loop: create the context's row if missing, then add one. */
  method Increment(counts: Matrix, g: string, n: nat) returns (counts': Matrix)
    requires n >= 1 && |g| == n
    ensures counts' == AddGram(counts, g)
  {
    var ctx := g[..n - 1];
    var c := g[n - 1];
    counts' := counts;
    if ctx !in counts' {
      counts' := counts'[ctx := map[]];
    }
    counts' := counts'[ctx := counts'[ctx][c := Get(counts'[ctx], c) + 1.0]];
  }

  /** Go's counting loop over the corpus lines. */
  method CountTransitions(lines: seq<string>, n: nat) returns (counts: Matrix)
    requires n >= 1
    ensures counts == CountGrams(CorpusNGrams(lines, n), n)
  {
    counts := map[];
    for li := 0 to |lines|
      invariant counts == CountGrams(CorpusNGrams(lines[..li], n), n)
    {
      var line := Pad(lines[li]);
      var grams := NGram(line, n);
      counts := CountLine(counts, grams, n, CorpusNGrams(lines[..li], n));
      CorpusSnoc(lines, n, li);
    }
    assert lines[..|lines|] == lines;
  }

  /**
   After counting, the entry for a context and next character is the number
   of n-grams that are that context followed by that character (0 if absent).
   */
  lemma {:induction false} CountsAreOccurrences(grams: seq<string>, n: nat, ctx: string, c: char)
    requires n >= 1 && AllOfLength(grams, n)
    ensures Lookup(CountGrams(grams, n), ctx, c) == Occurrences(grams, ctx + [c]) as real
    decreases |grams|
  {
    if grams != [] {
      var init, g := grams[..|grams| - 1], grams[|grams| - 1];
      CountsAreOccurrences(init, n, ctx, c);
      assert g == g[..|g| - 1] + [g[|g| - 1]];
    }
  }

  /** Counting n-grams yields a table of counts for n-grams. */
  lemma {:induction false} CountGramsShape(grams: seq<string>, n: nat)
    requires n >= 1 && AllOfLength(grams, n)
    ensures CountTable(CountGrams(grams, n), n)
    decreases |grams|
  {
    if grams != [] {
      CountGramsShape(grams[..|grams| - 1], n);
    }
  }

  /** A context is a key exactly when some n-gram starts with it. */
  lemma CountKeys(grams: seq<string>, n: nat, ctx: string)
    requires n >= 1 && AllOfLength(grams, n)
    ensures ctx in CountGrams(grams, n) <==> exists i :: 0 <= i < |grams| && grams[i][..n - 1] == ctx
  {
    var m := CountGrams(grams, n);
    if ctx in m {
      CountGramsShape(grams, n);
      var c :| c in m[ctx];
      CountsAreOccurrences(grams, n, ctx, c);
      OccurrenceWitness(grams, ctx + [c]);
    } else {
      forall i | 0 <= i < |grams| ensures grams[i][..n - 1] != ctx {
        ContextOfGramIsKey(grams, n, i);
      }
    }
  }

  /** The context of every counted n-gram is a key of the table. */
  lemma ContextOfGramIsKey(grams: seq<string>, n: nat, i: nat)
    requires n >= 1 && AllOfLength(grams, n) && i < |grams|
    ensures grams[i][..n - 1] in CountGrams(grams, n)
  {
    var g := grams[i];
    assert g == g[..n - 1] + [g[n - 1]];
    OccurrenceCounted(grams, i);
    CountsAreOccurrences(grams, n, g[..n - 1], g[n - 1]);
  }

  lemma {:induction false} OccurrenceWitness(grams: seq<string>, g: string)
    requires Occurrences(grams, g) > 0
    ensures exists i :: 0 <= i < |grams| && grams[i] == g
    decreases |grams|
  {
    var init := grams[..|grams| - 1];
    if grams[|grams| - 1] != g {
      OccurrenceWitness(init, g);
      var i :| 0 <= i < |init| && init[i] == g;
      assert grams[i] == g;
    }
  }

  lemma {:induction false} OccurrenceCounted(grams: seq<string>, i: nat)
    requires i < |grams|
    ensures Occurrences(grams, grams[i]) > 0
    decreases |grams|
  {
    var init := grams[..|grams| - 1];
    if i < |init| {
      OccurrenceCounted(init, i);
      assert init[i] == grams[i];
    }
  }

  /** The total of each row. */
  ghost function RowTotals(m: Matrix): (r: map<string, real>)
    ensures r.Keys == m.Keys
    ensures forall ctx :: ctx in r ==> r[ctx] == Sum(m[ctx])
  {
    map ctx | ctx in m :: Sum(m[ctx])
  }

  /** The sum of every count in the table. */
  ghost function TotalCount(m: Matrix): real
  {
    Sum(RowTotals(m))
  }

  lemma AddGramTotal(m: Matrix, g: string)
    requires |g| >= 1
    ensures TotalCount(AddGram(m, g)) == TotalCount(m) + 1.0
  {
    var ctx, c := g[..|g| - 1], g[|g| - 1];
    var row := if ctx in m then m[ctx] else map[];
    var row' := row[c := Get(row, c) + 1.0];
    SumUpdate(row, c, Get(row, c) + 1.0);
    var sums := RowTotals(m);
    var m' := AddGram(m, g);
    assert RowTotals(m') == sums[ctx := Sum(row')];
    SumUpdate(sums, ctx, Sum(row'));
    assert Get(sums, ctx) == Sum(row);
  }

  /** Every counted n-gram adds exactly one to the table's total. */
  lemma {:induction false} TotalIsNumberOfGrams(grams: seq<string>, n: nat)
    requires n >= 1 && AllOfLength(grams, n)
    ensures TotalCount(CountGrams(grams, n)) == |grams| as real
    decreases |grams|
  {
    if grams == [] {
      var empty: Matrix := map[];
      assert RowTotals(empty) == map[];
    } else {
      TotalIsNumberOfGrams(grams[..|grams| - 1], n);
      AddGramTotal(CountGrams(grams[..|grams| - 1], n), grams[|grams| - 1]);
    }
  }

  /** The number of n-grams a line contributes: |trimmed line| + 4 - n + 1, or none. */
  function Contribution(line: string, n: nat): nat
  {
    WindowCount(|TrimSpace(line)| + 4, n)
  }

  function Contributions(lines: seq<string>, n: nat): nat
    decreases |lines|
  {
    if lines == [] then 0
    else Contributions(lines[..|lines| - 1], n) + Contribution(lines[|lines| - 1], n)
  }

  /** The corpus yields as many n-grams as its lines contribute. */
  lemma {:induction false} CorpusSize(lines: seq<string>, n: nat)
    ensures |CorpusNGrams(lines, n)| == Contributions(lines, n)
    decreases |lines|
  {
    if lines != [] {
      var init, last := lines[..|lines| - 1], lines[|lines| - 1];
      CorpusSize(init, n);
      assert CorpusNGrams(lines, n) == CorpusNGrams(init, n) + NGrams(Pad(last), n);
      assert |Pad(last)| == |TrimSpace(last)| + 4;
    }
  }

  /** The table built from a corpus holds, in all, one count per padded n-gram. */
  lemma CorpusTotal(lines: seq<string>, n: nat)
    requires n >= 1
    ensures TotalCount(CountGrams(CorpusNGrams(lines, n), n)) == Contributions(lines, n) as real
  {
    CorpusSize(lines, n);
    TotalIsNumberOfGrams(CorpusNGrams(lines, n), n);
  }

  // ---------------------------------------------------------------------------
  // Normalisation

  /** No empty row and every value positive: what a table of counts provides. */
  predicate PositiveRows(m: Matrix)
  {
    forall ctx :: ctx in m ==> m[ctx] != map[] && forall c :: c in m[ctx] ==> m[ctx][c] > 0.0
  }

  lemma RowTotalPositive(row: map<char, real>)
    requires row != map[] && forall c :: c in row ==> row[c] > 0.0
    ensures Sum(row) > 0.0
  {
    var c :| c in row;
    SumRemove(row, c);
    SumNonNegative(row - {c});
  }

  /** One row as Go stores it: log(count / total) for every next character. */
  function LogRowOf(row: map<char, real>, total: real, log: real -> real): (r: map<char, real>)
    requires total != 0.0
    ensures r.Keys == row.Keys
  {
    map c | c in row :: log(row[c] / total)
  }

  /** One row normalised by its own total. */
  ghost function NormalRow(row: map<char, real>, log: real -> real): (r: map<char, real>)
    requires row != map[] && forall c :: c in row ==> row[c] > 0.0
    ensures r.Keys == row.Keys
  {
    RowTotalPositive(row);
    LogRowOf(row, Sum(row), log)
  }

  /** The table of log-probabilities built from a table of counts. */
  ghost function Normalized(counts: Matrix, log: real -> real): (r: Matrix)
    requires PositiveRows(counts)
    ensures r.Keys == counts.Keys
    ensures forall ctx :: ctx in r ==> r[ctx] == NormalRow(counts[ctx], log)
  {
    map ctx | ctx in counts :: NormalRow(counts[ctx], log)
  }

  /** count/total per context: the table normalised without the logarithm. */
  ghost function Ratios(counts: Matrix): Matrix
    requires PositiveRows(counts)
  {
    Normalized(counts, x => x)
  }

  /** The loop that adds up one row's counts, visiting its keys in any order. */
  method RowTotal(row: map<char, real>) returns (total: real)
    ensures total == Sum(row)
  {
    total := 0.0;
    var pending := row.Keys;
    assert Restrict(row, pending) == row;
    while pending != {}
      invariant pending <= row.Keys
      invariant total + Sum(Restrict(row, pending)) == Sum(row)
      decreases pending
    {
      var c :| c in pending;
      ghost var rest := Restrict(row, pending);
      SumRemove(rest, c);
      assert rest - {c} == Restrict(row, pending - {c});
      total := total + row[c];
      pending := pending - {c};
    }
    assert Restrict(row, pending) == map[];
  }

  /** The part of `row` on `keys`. */
  ghost function Restrict(row: map<char, real>, keys: set<char>): (r: map<char, real>)
    requires keys <= row.Keys
    ensures r.Keys == keys
    ensures forall c :: c in r ==> r[c] == row[c]
  {
    map c | c in keys :: row[c]
  }

  /** The loop that stores log(count / total) for every next character of one row. */
  method LogRow(row: map<char, real>, total: real, log: real -> real) returns (logRow: map<char, real>)
    requires total != 0.0
    ensures logRow == LogRowOf(row, total, log)
  {
    logRow := map[];
    var pending := row.Keys;
    while pending != {}
      invariant pending <= row.Keys
      invariant logRow.Keys == row.Keys - pending
      invariant forall c :: c in logRow ==> logRow[c] == log(row[c] / total)
      decreases pending
    {
      var c :| c in pending;
      logRow := logRow[c := log(row[c] / total)];
      pending := pending - {c};
    }
  }

  /**
   Go's normalising loop: for every context (in any order) add up its counts,
   then store log(count / total) for every next character.
   */
  method Normalize(counts: Matrix, log: real -> real) returns (probs: Matrix)
    requires PositiveRows(counts)
    ensures probs == Normalized(counts, log)
  {
    probs := map[];
    var contexts := counts.Keys;
    while contexts != {}
      invariant contexts <= counts.Keys
      invariant probs.Keys == counts.Keys - contexts
      invariant forall ctx :: ctx in probs ==> probs[ctx] == NormalRow(counts[ctx], log)
      decreases contexts
    {
      var ctx :| ctx in contexts;
      var total := RowTotal(counts[ctx]);
      RowTotalPositive(counts[ctx]);
      var logRow := LogRow(counts[ctx], total, log);
      probs := probs[ctx := logRow];
      contexts := contexts - {ctx};
    }
  }

  /** Each stored entry is the logarithm of its ratio count/total. */
  lemma NormalizedIsLogOfRatio(counts: Matrix, log: real -> real, ctx: string, c: char)
    requires PositiveRows(counts)
    requires ctx in counts && c in counts[ctx]
    ensures Normalized(counts, log)[ctx][c] == log(Ratios(counts)[ctx][c])
  {
    RowTotalPositive(counts[ctx]);
  }

  /** Every ratio lies in (0, 1]. */
  lemma RatioBounds(counts: Matrix, ctx: string, c: char)
    requires PositiveRows(counts)
    requires ctx in counts && c in counts[ctx]
    ensures c in Ratios(counts)[ctx]
    ensures 0.0 < Ratios(counts)[ctx][c] <= 1.0
  {
    var row := counts[ctx];
    RowTotalPositive(row);
    ValueAtMostSum(row, c);
    DivideBounds(row[c], Sum(row));
  }

  /** Division facts, kept apart so that nonlinear arithmetic stays out of larger proofs. */
  lemma DivideBounds(a: real, t: real)
    requires 0.0 < a <= t
    ensures 0.0 < a / t <= 1.0
  {
  }

  lemma DivideSelf(t: real)
    requires t != 0.0
    ensures t / t == 1.0
  {
  }

  /** Every row of ratios sums to one. */
  lemma RatioRowSumsToOne(counts: Matrix, ctx: string)
    requires PositiveRows(counts) && ctx in counts
    ensures Sum(Ratios(counts)[ctx]) == 1.0
  {
    var row := counts[ctx];
    RowTotalPositive(row);
    assert Ratios(counts)[ctx] == map c | c in row :: row[c] / Sum(row);
    SumDivide(row, Sum(row));
    DivideSelf(Sum(row));
  }

  /** With a logarithm that is at most 0 on (0, 1], every stored entry is at most 0. */
  lemma LogEntriesNonPositive(counts: Matrix, log: real -> real, ctx: string, c: char)
    requires PositiveRows(counts)
    requires forall x :: 0.0 < x <= 1.0 ==> log(x) <= 0.0
    requires ctx in counts && c in counts[ctx]
    ensures ctx in Normalized(counts, log) && c in Normalized(counts, log)[ctx]
    ensures Normalized(counts, log)[ctx][c] <= 0.0
  {
    RatioBounds(counts, ctx, c);
    NormalizedIsLogOfRatio(counts, log, ctx, c);
  }
}
