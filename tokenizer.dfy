/**
 The tokenizer: `ngram` lower-cases its input and emits every overlapping
 window of width n, left to right. Its `validChar` test sits in an inner loop
 whose `continue` only moves to the next character, so it filters nothing.
 */
module Tokenizer {
  import opened Text

  /** An ASCII control character: codes 0 to 31 and DEL (127). */
  predicate IsControl(c: char)
  {
    c < ' ' || c == '\U{7F}'
  }

  /**
   Printable ASCII, codes 32 to 126: an ASCII character that is not a control
   character. The only white space it admits is the plain space.
   */
  predicate ValidChar(c: char)
    ensures ValidChar(c) <==> c as int < 128 && !IsControl(c)
    ensures ValidChar(c) && IsSpace(c) ==> c == ' '
  {
    32 <= c as int <= 126
  }

  /** How many windows of width n fit into a string of length `len`. */
  function WindowCount(len: int, n: int): nat
  {
    if len - n + 1 > 0 then len - n + 1 else 0
  }

  /**
   The windows of width n of the lower-cased `s`, defined by peeling off the
   first window. There are |s| - n + 1 of them (none when |s| < n), and the
   i-th is s[i..i+n] lower-cased (`NGramsAt`), so each has length n.
   */
  function NGrams(s: string, n: nat): (r: seq<string>)
    ensures |r| == WindowCount(|s|, n)
    ensures AllOfLength(r, n)
    decreases |s|
  {
    if |s| < n then []
    else [ToLower(s[..n])] + (if |s| == n then [] else NGrams(s[1..], n))
  }

  /** The i-th window is s[i..i+n], lower-cased. */
  lemma {:induction false} NGramsAt(s: string, n: nat, i: nat)
    requires i < WindowCount(|s|, n)
    ensures NGrams(s, n)[i] == ToLower(s[i..i + n])
    decreases |s|
  {
    if i > 0 {
      var t := s[1..];
      NGramsAt(t, n, i - 1);
      assert NGrams(s, n) == [ToLower(s[..n])] + NGrams(t, n);
      assert t[i - 1..i - 1 + n] == s[i..i + n];
    }
  }

  /** Every n-gram has length n. */
  predicate AllOfLength(grams: seq<string>, n: nat)
  {
    forall i :: 0 <= i < |grams| ==> |grams[i]| == n
  }

  /** Go's `ngram`, with its inner `validChar` loop kept as written. */
  method NGram(input: string, n: nat) returns (result: seq<string>)
    ensures result == NGrams(input, n)
  {
    result := [];
    var s := ToLower(input);
    var i := 0;
    while i < |s| - n + 1
      invariant 0 <= i <= WindowCount(|s|, n)
      invariant result == NGrams(input, n)[..i]
    {
      for j := 0 to n {
        if !ValidChar(s[i + j]) {
          continue;
        }
      }
      ToLowerSlice(input, i, i + n);
      NGramsAt(input, n, i);
      result := result + [s[i..i + n]];
      i := i + 1;
    }
  }

  /**
   The windows that an effective `validChar` filter would keep: those made of
   printable ASCII only. `ngram` does not compute this.
   */
  function ValidNGrams(s: string, n: nat): (r: seq<string>)
    ensures |r| <= WindowCount(|s|, n)
    decreases |s|
  {
    if |s| < n then []
    else
      var w := ToLower(s[..n]);
      (if forall k :: 0 <= k < n ==> ValidChar(w[k]) then [w] else [])
        + (if |s| == n then [] else ValidNGrams(s[1..], n))
  }

  /** When every character is printable the filter would drop nothing. */
  lemma {:induction false} AllValidKeepsAll(s: string, n: nat)
    requires forall k :: 0 <= k < |s| ==> ValidChar(s[k])
    ensures ValidNGrams(s, n) == NGrams(s, n)
    decreases |s|
  {
    if |s| >= n {
      var w := ToLower(s[..n]);
      forall k | 0 <= k < n ensures ValidChar(w[k]) {
        assert ValidChar(Lower(s[k])) == ValidChar(s[k]);
      }
      if |s| != n {
        AllValidKeepsAll(s[1..], n);
      }
    }
  }

  /** A window holding a non-printable character makes the filter drop one. */
  lemma {:induction false} InvalidWindowDropped(s: string, n: nat, i: nat, j: nat)
    requires i + n <= |s| && i <= j < i + n
    requires !ValidChar(s[j])
    ensures |ValidNGrams(s, n)| < |NGrams(s, n)|
    decreases i
  {
    var w := ToLower(s[..n]);
    if i == 0 {
      assert ValidChar(Lower(s[j])) == ValidChar(s[j]);
      assert !ValidChar(w[j]);
    } else {
      InvalidWindowDropped(s[1..], n, i - 1, j - 1);
    }
  }

  /**
   `ngram` emits every window, printable or not: its output coincides with the
   filtered windows exactly when there is nothing to filter.
   */
  lemma NGramsIgnoreValidity(s: string, n: nat)
    ensures NGrams(s, n) == ValidNGrams(s, n)
        <==> n == 0 || |s| < n || forall k :: 0 <= k < |s| ==> ValidChar(s[k])
  {
    if forall k :: 0 <= k < |s| ==> ValidChar(s[k]) {
      AllValidKeepsAll(s, n);
    } else if n > 0 && |s| >= n {
      var j :| 0 <= j < |s| && !ValidChar(s[j]);
      var i := if j < |s| - n then j else |s| - n;
      InvalidWindowDropped(s, n, i, j);
    } else if n == 0 {
      ZeroWidthAllValid(s);
    }
  }

  /** Windows of width 0 are empty strings, which the filter would keep. */
  lemma {:induction false} ZeroWidthAllValid(s: string)
    ensures ValidNGrams(s, 0) == NGrams(s, 0)
    decreases |s|
  {
    if |s| != 0 {
      ZeroWidthAllValid(s[1..]);
    }
  }
}
