# Character n-gram Markov gibberish scorer, in Dafny

This project models the scorer in `main.go` of the gibberish detector. The scorer learns
how often each character follows each context of n−1 characters in a corpus. It then scores a
string against that table and calls the string plausible when the score is above a threshold.
The threshold is calibrated on a file of good lines and a file of bad lines.

The model follows the Go code, including its quirks:

- **Tokenizer** (`tokenizer.dfy`, module `Tokenizer`). `ngram` lower-cases its input and emits
  every window of width n. Its `validChar` test is a no-op: the `continue` only skips to the next
  character of the inner loop. `Tokenizer.NGram` keeps that loop, and `NGramsIgnoreValidity`
  proves that the output matches a genuinely filtered tokenizer only when there is nothing to filter.
- **Counting** (`table.dfy`, module `Table`). Each corpus line is trimmed, padded with two spaces on
  each side and cut into n-grams. For each n-gram, `counts[context][next]` is incremented. The table
  is `map<string, map<char, real>>`, the same type for counts and for log-probabilities, as in Go.
- **Normalising**. Each row becomes `log(count / total)`. Go ranges over maps in no fixed order, so
  the loops take keys in any order. A ghost `MapSums.Sum` and its lemma `SumRemove` make totals
  independent of that order. `math.Log` is a parameter `log: real -> real`. Lemmas that need the
  logarithm's sign ask only that `log(x) <= 0` on (0, 1].
- **Scoring** (`scorer.dfy`, module `Scorer`). `averageTransitionProbability` returns the plain sum
  of the table entries of the input's n-grams; it does not average. It fails at the first n-gram
  whose context or next character is missing. It neither trims nor pads. `calculateProbabilities`
  trims each line and keeps the scores of the lines that score. `markovCheck` rejects an unscorable
  string and otherwise compares strictly: `score > threshold`.
- **Threshold** (`trainer.dfy`, module `Trainer`). The threshold is `(min good + max bad) / 2`,
  computed on the normalised table. `markovTrain` nevertheless returns the raw counts (see Findings).

Go's file reading is replaced by sequences of lines. Go infers n from the length of an arbitrary
map key plus one. Here n is passed in, and the scorer requires a non-empty table whose keys all have
length n−1 (`Scorer.TableFor`); that is the condition under which Go's inference gives that n.
Where Go panics, the model has a `requires`:
- slicing with n ≤ 0;
- an empty table, where the inferred n would be 0;
- `goodProbs[0]` or `badProbs[0]` on an empty score list.

Some things one might expect of a gibberish scorer are not what this code does, and the model follows the code:
- the score is a raw sum, not a length-normalised mean;
- n-grams with non-printable characters are not excluded;
- calibration does not skip lines shorter than three characters;
- an empty calibration set is a crash, not an error value;
- there is no smoothing, generator or persistence.

## Model

| member | source | states |
|---|---|---|
| `Text.ToLower` | main.go:36 | lower-casing keeps the length, passes each character through ASCII `Lower` (letters 'A'–'Z' move down to 'a'–'z', every other character is kept) and leaves no upper-case letter |
| `Text.TrimSpace` | main.go:64 | the trimmed text is no longer than the input and neither starts nor ends with white space |
| `Text.TrimSpaceOfPadded` | main.go:62-64 | trimming a trimmed text padded with two spaces on each side gives back that text |
| `Text.TrimLeftSpaces` | main.go:64 | trimming on the left removes only white space, all of it |
| `Text.TrimRightSpaces` | main.go:64 | trimming on the right removes only white space, all of it |
| `Text.TrimSpaceIsCore` | main.go:64 | `TrimSpace` returns one slice of its input, with only white space before and after it, and neither starts nor ends with white space |
| `Tokenizer.ValidChar` | main.go:48-50 | a character is valid iff it is ASCII and not a control character; the only valid white space is the plain space |
| `Tokenizer.NGrams` | main.go:34-46 | there are max(0, \|s\|−n+1) windows and each has length n |
| `Tokenizer.NGramsAt` | main.go:36-44 | the i-th window is `s[i..i+n]` of the lower-cased input |
| `Tokenizer.NGram` | main.go:34-46 | the nested loop, with its `validChar` test, returns exactly `NGrams(input, n)` |
| `Tokenizer.NGramsIgnoreValidity` | main.go:38-42 | `ngram`'s output equals the printable-only windows iff n = 0, the input is shorter than n, or every character is printable; windows with characters outside 32–126 are emitted |
| `Tokenizer.InvalidWindowDropped` | main.go:48-50 | a window holding a character outside 32–126 makes the filtered output strictly shorter than `ngram`'s |
| `Table.Pad` | main.go:61-64 | a counted line is the trimmed line with four characters of padding that trimming removes again |
| `Table.AddGram` | main.go:67-72 | counting an n-gram makes its context a key and adds one to its entry |
| `Table.AddGramOthersUnchanged` | main.go:69-72 | counting an n-gram leaves every other entry as it was |
| `Table.Increment` | main.go:69-72 | creating the row when missing and then incrementing equals `AddGram` |
| `Table.CountTransitions` | main.go:58-74 | the counting loop over padded lines yields `CountGrams` of every n-gram of `"  " + trim(line) + "  "`, in line order |
| `Table.CountLine` | main.go:65-73 | counting one line's n-grams extends the table by exactly those n-grams |
| `Table.CountsAreOccurrences` | main.go:66-73 | `counts[ctx][c]` (0 when absent) equals the number of n-grams that are `ctx` followed by `c` |
| `Table.CountGramsShape` | main.go:67-72 | every context key has length n−1, no row is empty, every stored count is at least 1 |
| `Table.CountKeys` | main.go:67-70 | a context is a key iff some n-gram starts with it |
| `Table.ContextOfGramIsKey` | main.go:67-71 | the context of every counted n-gram is a key of the table |
| `Table.TotalIsNumberOfGrams` | main.go:66-73 | the counts add up to the number of n-grams counted |
| `Table.CorpusSize` | main.go:61-65 | the corpus yields Σ max(0, \|trim(line)\|+4−n+1) n-grams |
| `Table.CorpusTotal` | main.go:61-74 | the total of all counts equals the sum of each padded line's contribution |
| `Table.RowTotal` | main.go:79-82 | the loop over a row's counts, in any key order, yields the row's sum |
| `Table.LogRow` | main.go:83-86 | the loop stores `log(count / total)` for exactly the row's next characters |
| `Table.Normalized` | main.go:77-87 | the normalised table has the same contexts as the counts, and each row has the same next characters |
| `Table.Normalize` | main.go:76-87 | the normalising loop over contexts, in any order, yields `Normalized(counts, log)` |
| `Table.NormalizedIsLogOfRatio` | main.go:85 | each stored entry is `log` of that entry's ratio count/total |
| `Table.RatioBounds` | main.go:85 | every ratio count/total lies in (0, 1] |
| `Table.RatioRowSumsToOne` | main.go:77-87 | every row of ratios sums to 1 |
| `Table.LogEntriesNonPositive` | main.go:85 | with a logarithm ≤ 0 on (0, 1], every stored entry is ≤ 0 |
| `Scorer.ScoreGrams` | main.go:142-157 | a failing score names one of the input's n-grams, and that n-gram has no entry |
| `Scorer.AverageTransitionProbability` | main.go:132-158 | returns the score of `input` over its n-grams, with n passed in for the inferred one |
| `Scorer.SumTransitions` | main.go:142-157 | the loop adds the entries in order and returns the failing n-gram at the first missing context or next character |
| `Scorer.FailureSticks` | main.go:149-153 | once an n-gram is missing, later n-grams do not change the outcome |
| `Scorer.AllKnownScoresSum` | main.go:145-148 | when every n-gram has an entry, the score is the sum of those entries |
| `Scorer.FirstUnknownFails` | main.go:149-153 | scoring fails on, and names, the first n-gram without an entry |
| `Scorer.ScoreFailsIffUnknown` | main.go:142-157 | scoring fails iff some n-gram's context or next character is missing |
| `Scorer.ShortInputScoresZero` | main.go:141-157 | input shorter than n scores 0 without error |
| `Scorer.CalculateProbabilities` | main.go:120-128 | the result is the scores of the trimmed lines that score, in line order |
| `Scorer.CollectAppend` | main.go:123-127 | collecting scores distributes over concatenation, so line order is kept |
| `Scorer.CollectSize` | main.go:123-127 | one score is kept per line that scores |
| `Scorer.KeptScoresContain` | main.go:121-127 | the score of every line that scores is among the kept scores |
| `Scorer.KeptScoresFromLines` | main.go:121-127 | every kept score is the score of some trimmed line |
| `Scorer.MarkovCheck` | main.go:161-167 | on a non-empty table whose keys have length n−1 (Go panics otherwise), an unscorable string is rejected, a scored one is accepted iff its score is above the threshold, and a string shorter than n is accepted iff the threshold is negative |
| `Scorer.MarkovCheckMonotone` | main.go:161-167 | a string accepted at some threshold is accepted at every lower one |
| `Scorer.MarkovCheckMeaning` | main.go:161-167 | a string is accepted iff every n-gram has an entry and the sum of the entries is strictly above the threshold |
| `Scorer.ThresholdItselfRejected` | main.go:166 | a score equal to the threshold is rejected |
| `Trainer.SeqMin` | main.go:92-97 | the lowest score is one of the scores and is ≤ all of them |
| `Trainer.SeqMax` | main.go:99-104 | the highest score is one of the scores and is ≥ all of them |
| `Trainer.MinGood` | main.go:92-97 | the loop starting from `goodProbs[0]` yields the lowest good score |
| `Trainer.MaxBad` | main.go:99-104 | the loop starting from `badProbs[0]` yields the highest bad score |
| `Trainer.Midpoint` | main.go:107 | the threshold lies between min good and max bad, and strictly between them when max bad < min good |
| `Trainer.MinGoodMonotone` | main.go:92-97 | adding a good score can keep or lower min good, never raise it |
| `Trainer.Calibrate` | main.go:89-107 | the threshold is the midpoint of the lowest kept good score and the highest kept bad score |
| `Trainer.TrainedTablesFor` | main.go:58-87 | a corpus with at least one n-gram gives tables with keys of length n−1 that the scorer accepts |
| `Trainer.MarkovTrain` | main.go:52-111 | returns the threshold calibrated on the normalised table, together with the raw counts |
| `Trainer.TrainModel` | main.go:52-111 | the same training, returning the normalised table the threshold was calibrated on |
| `Trainer.SeparatedCalibrationClassifies` | main.go:89-107 | if every good score exceeds every bad score, the threshold accepts every good line that scores and rejects every bad line |
| `Trainer.ScoreAtMostZero` | main.go:142-148 | on a table with no positive entry, no score is positive |
| `Trainer.ScoreAtLeastLength` | main.go:142-148 | on a table with every entry ≥ 1, a score is at least its number of n-grams |
| `Trainer.TrainedProbsNonPositive` | main.go:77-87 | the trained log-probability table has no positive entry |
| `Trainer.ThresholdAtMostZero` | main.go:89-107 | the calibrated threshold is ≤ 0 |
| `Trainer.CountsAcceptEveryCoveredString` | main.go:109 | the returned counts are a table the scorer accepts, and against them every string of at least n characters that scores is accepted, whatever the calibration lines |

## Left out

- File opening, `bufio.Scanner` loops, `log.Fatal`, and `os.Args`/`strconv.Atoi` parsing are I/O glue (main.go:53-60, 113-119, 170-175). The model takes lines as `seq<string>`.
- `main`'s classification loop is not modelled (main.go:177-208): its `"null);"` skip, printing, and accuracy ratio are I/O. What it computes per line is `Scorer.MarkovCheck` against the counts.
- `math.Log` is the parameter `log`. Values are exact reals. There is no floating-point rounding, NaN or −Inf.
- `shannonEntropy` and `ENTROPY_THRESHOLD` are not modelled (main.go:14, 19-32). They are floating-point numerics that nothing calls; the call at main.go:204-205 is commented out.
- Inferring n from the first key Go's map iteration yields is not modelled (main.go:135-139). n is a parameter, tied to the table by `Scorer.TableFor`.
- `strings.ToLower` and `strings.TrimSpace` are modelled on ASCII only. Unicode case mapping, Unicode white space, and byte-versus-rune slicing are not modelled; input is assumed to be ASCII.
- Go's panics are preconditions, not modelled behaviour: n ≥ 1 for training and scoring (`Tokenizer.NGram` takes `n: nat`), a non-empty table for scoring, and non-empty score lists for the threshold.
- `contrib/make_gibberish.py`, `contrib/clean.py` and `contrib/test_train_split.py` are not modelled. They do random sampling, call an external library, and do one-off CSV and file rewriting.
- Generation, smoothing, serialisation, length-normalised scores and calibration error values are not modelled. The Go code has none of them.

## Findings

| source | as written | input that shows it | evidently intended | confidence | as-written member | corrected member |
|---|---|---|---|---|---|---|
| main.go:109 | `markovTrain` calibrates the threshold on log-probabilities (all ≤ 0) but returns the raw counts; `main` then classifies against the counts (main.go:176, 196) | n = 2, corpus `["the cat"]`, good `["the cat"]`, bad `["cat the"]`: `markovCheck("cat the", threshold, counts)` is true (score ≥ 6 > 0 ≥ threshold), so a bad calibration line is accepted | return the normalised table with the threshold | high; not executed | `Trainer.CountsAcceptEveryCoveredString` | `Trainer.TrainModel` |

`Trainer.CountsAcceptEveryCoveredString` proves the as-written behaviour. Against the returned
counts, any string of at least n characters whose n-grams all occur in the corpus is accepted,
whatever the calibration lines were. `Trainer.TrainModel` returns the table the threshold was
computed on. For that table, `Trainer.SeparatedCalibrationClassifies` proves the intended behaviour:
when the calibration sets separate, every good line that scores is accepted and every bad line is
rejected. `Trainer.MarkovTrain` keeps the as-written return value.
