/**
 The two string helpers the scorer takes from Go's `strings` package, restricted
 to ASCII: `strings.ToLower` and `strings.TrimSpace`.
 */
module Text {

  /** ASCII white space as Go's `unicode.IsSpace` sees it below 0x80. */
  predicate IsSpace(c: char)
  {
    c == ' ' || c == '\t' || c == '\n' || c == '\r' || c == '\U{0B}' || c == '\U{0C}'
  }

  /** ASCII lower-casing: 'A'..'Z' map to 'a'..'z', every other character is kept. */
  function Lower(c: char): (r: char)
    ensures 'A' <= c <= 'Z' ==> 'a' <= r <= 'z' && r as int - c as int == 32
    ensures !('A' <= c <= 'Z') ==> r == c
  {
    if 'A' <= c <= 'Z' then (c as int + 32) as char else c
  }

  /**
   Go's `strings.ToLower` on ASCII text: same length, each character passed
   through `Lower`, so no upper-case letter is left and every other character is kept.
   */
  function ToLower(s: string): (r: string)
    ensures |r| == |s|
    ensures forall i :: 0 <= i < |r| ==> !('A' <= r[i] <= 'Z')
    ensures forall i :: 0 <= i < |s| ==> r[i] == Lower(s[i])
  {
    seq(|s|, i requires 0 <= i < |s| => Lower(s[i]))
  }

  /** Lower-casing commutes with slicing. */
  lemma ToLowerSlice(s: string, i: int, j: int)
    requires 0 <= i <= j <= |s|
    ensures ToLower(s[i..j]) == ToLower(s)[i..j]
  {
  }

  /** Drops leading white space; what is left is a suffix. */
  function TrimLeft(s: string): (r: string)
    ensures |r| <= |s| && r == s[|s| - |r|..]
    decreases |s|
  {
    if s != [] && IsSpace(s[0]) then TrimLeft(s[1..]) else s
  }

  /** Drops trailing white space; what is left is a prefix. */
  function TrimRight(s: string): (r: string)
    ensures |r| <= |s| && r == s[..|r|]
    decreases |s|
  {
    if s != [] && IsSpace(s[|s| - 1]) then TrimRight(s[..|s| - 1]) else s
  }

  /**
   Go's `strings.TrimSpace` on ASCII text: the result is no longer than the
   input and neither starts nor ends with white space.
   */
  function TrimSpace(s: string): (r: string)
    ensures |r| <= |s|
    ensures r == [] || (!IsSpace(r[0]) && !IsSpace(r[|r| - 1]))
  {
    var l := TrimLeft(s);
    TrimLeftSpaces(s);
    TrimRightSpaces(l);
    var r := TrimRight(l);
    assert r != [] ==> r[0] == l[0];
    r
  }

  /** TrimLeft removes white space only, and all of it. */
  lemma {:induction false} TrimLeftSpaces(s: string)
    ensures forall k :: 0 <= k < |s| - |TrimLeft(s)| ==> IsSpace(s[k])
    ensures TrimLeft(s) == [] || !IsSpace(TrimLeft(s)[0])
    decreases |s|
  {
    if s != [] && IsSpace(s[0]) {
      TrimLeftSpaces(s[1..]);
    }
  }

  /** TrimRight removes white space only, and all of it. */
  lemma {:induction false} TrimRightSpaces(s: string)
    ensures forall k :: |TrimRight(s)| <= k < |s| ==> IsSpace(s[k])
    ensures TrimRight(s) == [] || !IsSpace(TrimRight(s)[|TrimRight(s)| - 1])
    decreases |s|
  {
    if s != [] && IsSpace(s[|s| - 1]) {
      TrimRightSpaces(s[..|s| - 1]);
    }
  }

  /** The trimmed text is the slice between the leading and the trailing white space. */
  lemma TrimSpaceSlice(s: string)
    ensures TrimSpace(s) == s[|s| - |TrimLeft(s)|..|s| - |TrimLeft(s)| + |TrimSpace(s)|]
  {
    var l := TrimLeft(s);
    var r := TrimRight(l);
    var i := |s| - |l|;
    assert l == s[i..];
    assert r == l[..|r|];
  }
  /** White space at the end of a suffix of `s` is white space at the end of `s`. */
  lemma SuffixSpaces(s: string, i: nat, m: nat)
    requires i <= |s| && m <= |s| - i
    requires forall k :: m <= k < |s| - i ==> IsSpace(s[i..][k])
    ensures forall k :: i + m <= k < |s| ==> IsSpace(s[k])
  {
    forall k | i + m <= k < |s| ensures IsSpace(s[k]) {
      assert s[k] == s[i..][k - i];
    }
  }

  /** Everything after the trimmed slice is white space. */
  lemma TrimSpaceTrailing(s: string)
    ensures forall k :: |s| - |TrimLeft(s)| + |TrimSpace(s)| <= k < |s| ==> IsSpace(s[k])
  {
    var l := TrimLeft(s);
    var i := |s| - |l|;
    TrimRightSpaces(l);
    assert l == s[i..];
    SuffixSpaces(s, i, |TrimRight(l)|);
  }

  /**
   TrimSpace cuts out one slice of its input: everything before and after it is
   white space, and the slice neither starts nor ends with white space.
   */
  lemma TrimSpaceIsCore(s: string)
    ensures var i := |s| - |TrimLeft(s)|;
            var j := i + |TrimSpace(s)|;
            && 0 <= i <= j <= |s| && TrimSpace(s) == s[i..j]
            && (forall k :: 0 <= k < i ==> IsSpace(s[k]))
            && (forall k :: j <= k < |s| ==> IsSpace(s[k]))
    ensures TrimSpace(s) == [] || (!IsSpace(TrimSpace(s)[0]) && !IsSpace(TrimSpace(s)[|TrimSpace(s)| - 1]))
  {
    TrimLeftSpaces(s);
    TrimSpaceSlice(s);
    TrimSpaceTrailing(s);
  }

  /**
   Two spaces added on each side of an already trimmed text are exactly what
   trimming removes again.
   */
  lemma TrimSpaceOfPadded(t: string)
    requires t == [] || (!IsSpace(t[0]) && !IsSpace(t[|t| - 1]))
    ensures TrimSpace("  " + t + "  ") == t
  {
    var u := t + "  ";
    var p := "  " + t + "  ";
    assert p == "  " + u;
    TrimLeftPrefix(u);
    var l := TrimLeft(u);
    TrimLeftSuffix(t, l);
    TrimRightSuffix(t, l);
    assert TrimSpace(p) == TrimRight(TrimLeft(p));
  }

  /** Two leading spaces are dropped by TrimLeft. */
  lemma TrimLeftPrefix(u: string)
    ensures TrimLeft("  " + u) == TrimLeft(u)
  {
    var p := "  " + u;
    assert p[1..] == " " + u;
    assert p[1..][1..] == u;
  }

  /** TrimLeft keeps `t` followed by two spaces when `t` does not start with white space. */
  lemma TrimLeftSuffix(t: string, l: string)
    requires t == [] || !IsSpace(t[0])
    requires l == TrimLeft(t + "  ")
    ensures l == t + "  " || (t == [] && l == [])
  {
    var u := t + "  ";
    if t == [] {
      assert u[1..][1..] == [];
    } else {
      assert u[0] == t[0];
    }
  }

  /** TrimRight turns `t` followed by two spaces back into `t` when `t` does not end in white space. */
  lemma TrimRightSuffix(t: string, l: string)
    requires t == [] || !IsSpace(t[|t| - 1])
    requires l == t + "  " || (t == [] && l == [])
    ensures TrimRight(l) == t
  {
    if l != [] {
      var m := t + " ";
      assert l[..|l| - 1] == m;
      assert TrimRight(l) == TrimRight(m);
      assert m[..|m| - 1] == t;
      assert TrimRight(m) == TrimRight(t);
    }
  }
}
