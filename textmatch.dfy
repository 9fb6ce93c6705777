/**
 * The fixed regular-expression fragments the classifiers use, written as
 * string predicates: a literal at a position, "somewhere in the text",
 * maximal runs of a character class (greedy `+` and `*`), and `.*` as a
 * stretch free of line feeds.
 */
module TextMatch {
  import opened Ascii

  /** The literal `p` occurs in `s` starting at index `i`. */
  predicate StartsAt(s: string, i: int, p: string) {
    0 <= i && i + |p| <= |s| && s[i..i + |p|] == p
  }

  /** `re.search` of a literal: `p` occurs somewhere in `s` (Python's `p in s`). */
  predicate Contains(s: string, p: string) {
    exists i :: 0 <= i <= |s| - |p| && StartsAt(s, i, p)
  }

  /** `.*` between `lo` and `hi`: no line feed in `s[lo..hi]` (the dot does not match `\n`). */
  predicate NoLineFeed(s: string, lo: int, hi: int)
    requires 0 <= lo <= hi <= |s|
  {
    forall k :: lo <= k < hi ==> s[k] != '\n'
  }

  /** A literal occurrence survives putting text before and after it. */
  lemma ContainsExtends(p: string, m: string, x: string, y: string)
    requires Contains(m, x)
    ensures Contains(p + m + y, x)
  {
    var i :| 0 <= i <= |m| - |x| && StartsAt(m, i, x);
    var s := p + m + y;
    assert s[|p| + i..|p| + i + |x|] == m[i..i + |x|];
    assert StartsAt(s, |p| + i, x);
  }

  /** An occurrence in the text is an occurrence in its ASCII-folded form, once the pattern is folded too. */
  lemma StartsAtLower(s: string, i: int, p: string)
    requires StartsAt(s, i, p)
    ensures StartsAt(Lower(s), i, Lower(p))
  {
    assert Lower(s)[i..i + |p|] == Lower(p);
  }

  /** The character classes used by `[...]+` and `\s*` in the patterns. */
  datatype CharClass =
    | Spaces     // \s
    | Digits     // \d
    | HostChars  // [a-zA-Z0-9\-]
    | UserChars  // [a-zA-Z0-9\[\]_]

  predicate InClass(c: char, k: CharClass) {
    match k
    case Spaces => IsSpace(c)
    case Digits => IsDigit(c)
    case HostChars => IsLetter(c) || IsDigit(c) || c == '-'
    case UserChars => IsLetter(c) || IsDigit(c) || c == '[' || c == ']' || c == '_'
  }

  /** All characters of `s[lo..hi]` are in class `k`. */
  predicate AllIn(s: string, lo: int, hi: int, k: CharClass)
    requires 0 <= lo <= hi <= |s|
  {
    forall j :: lo <= j < hi ==> InClass(s[j], k)
  }

  /**
   * Length of the longest run of class `k` starting at `p`: what a greedy
   * `[...]*` consumes there. The run is all in the class and cannot be extended.
   */
  function RunLen(s: string, p: int, k: CharClass): (n: nat)
    requires 0 <= p <= |s|
    ensures p + n <= |s|
    ensures AllIn(s, p, p + n, k)
    ensures p + n == |s| || !InClass(s[p + n], k)
    decreases |s| - p
  {
    if p < |s| && InClass(s[p], k) then 1 + RunLen(s, p + 1, k) else 0
  }

  /** A run that is all in the class and stops at a character outside it is the maximal run. */
  lemma {:induction false} RunLenUnique(s: string, p: int, k: CharClass, n: nat)
    requires 0 <= p && p + n <= |s|
    requires AllIn(s, p, p + n, k)
    requires p + n == |s| || !InClass(s[p + n], k)
    ensures RunLen(s, p, k) == n
    decreases n
  {
    if n > 0 {
      RunLenUnique(s, p + 1, k, n - 1);
    }
  }

  /** The maximal run is at least as long as any run of the class at the same place. */
  lemma {:induction false} RunLenAtLeast(s: string, p: int, k: CharClass, m: nat)
    requires 0 <= p && p + m <= |s|
    requires AllIn(s, p, p + m, k)
    ensures RunLen(s, p, k) >= m
    decreases m
  {
    if m > 0 {
      RunLenAtLeast(s, p + 1, k, m - 1);
    }
  }

  /** `s[:n]`: the first `n` characters, or all of `s` when it is shorter. */
  function Prefix(s: string, n: nat): (r: string)
    ensures |r| == if |s| < n then |s| else n
    ensures r <= s
  {
    if |s| < n then s else s[..n]
  }

  /** Number of trailing characters of `s[..hi]` that are whitespace. */
  function TrailingSpaces(s: string, hi: int): (n: nat)
    requires 0 <= hi <= |s|
    ensures n <= hi
    ensures forall j :: hi - n <= j < hi ==> IsSpace(s[j])
    ensures n == hi || !IsSpace(s[hi - n - 1])
    decreases hi
  {
    if hi > 0 && IsSpace(s[hi - 1]) then 1 + TrailingSpaces(s, hi - 1) else 0
  }

  /**
   * `s.strip()`: the text without leading and trailing whitespace. What is cut
   * off is whitespace, what remains is a slice of `s` that neither starts nor
   * ends with whitespace.
   */
  function Strip(s: string): (r: string)
    ensures exists lo, hi :: 0 <= lo <= hi <= |s| && r == s[lo..hi] &&
              (forall j :: 0 <= j < lo ==> IsSpace(s[j])) &&
              (forall j :: hi <= j < |s| ==> IsSpace(s[j]))
    ensures r != [] ==> !IsSpace(r[0]) && !IsSpace(r[|r| - 1])
  {
    var lo := RunLen(s, 0, Spaces);
    if lo == |s| then
      assert s[lo..lo] == [];
      []
    else
      var hi := |s| - TrailingSpaces(s, |s|);
      assert !IsSpace(s[lo]);
      assert lo < hi;
      s[lo..hi]
  }
}
