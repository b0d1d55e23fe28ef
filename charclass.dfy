/**
 * The character classes that occur in the six extraction patterns, and the
 * maximal runs that greedy `+` repetitions over them consume.
 *
 * Python's `\w` on `str` is Unicode-aware; this model restricts it to the
 * ASCII word characters `[A-Za-z0-9_]`.
 */
module CharClass {

  /** The bracketed classes of the six regular expressions. */
  datatype Class =
    | Digit         // [0-9]
    | NonZeroDigit  // [1-9]
    | EmailChar     // [\w\.-]
    | PathChar      // [a-zA-Z0-9.\-_/]
    | HandleChar    // [a-zA-Z0-9._]

  predicate IsAsciiLetter(c: char) {
    'a' <= c <= 'z' || 'A' <= c <= 'Z'
  }

  predicate IsAsciiDigit(c: char) {
    '0' <= c <= '9'
  }

  /** `\w`, restricted to ASCII. */
  predicate IsWordChar(c: char) {
    IsAsciiLetter(c) || IsAsciiDigit(c) || c == '_'
  }

  predicate In(c: char, k: Class) {
    match k
    case Digit => IsAsciiDigit(c)
    case NonZeroDigit => '1' <= c <= '9'
    case EmailChar => IsWordChar(c) || c == '.' || c == '-'
    case PathChar => IsAsciiLetter(c) || IsAsciiDigit(c) || c == '.' || c == '-' || c == '_' || c == '/'
    case HandleChar => IsAsciiLetter(c) || IsAsciiDigit(c) || c == '.' || c == '_'
  }

  /** `s[a..b]` is a stretch of class-`k` characters. */
  predicate AllIn(s: seq<char>, a: nat, b: nat, k: Class) {
    a <= b <= |s| && forall j :: a <= j < b ==> In(s[j], k)
  }

  /** `lit` occurs in `s` at position `i`, read one character at a time. */
  predicate HasAt(s: seq<char>, i: nat, lit: seq<char>)
    decreases |lit|
  {
    i + |lit| <= |s| && (|lit| == 0 || (s[i] == lit[0] && HasAt(s, i + 1, lit[1..])))
  }

  /** The characters of an occurrence. */
  lemma {:induction false} HasAtIndex(s: seq<char>, i: nat, lit: seq<char>, k: nat)
    requires HasAt(s, i, lit) && k < |lit|
    ensures s[i + k] == lit[k]
    decreases |lit|
  {
    if k > 0 {
      HasAtIndex(s, i + 1, lit[1..], k - 1);
    }
  }

  /** An occurrence is a slice of `s` equal to `lit`. */
  lemma {:induction false} HasAtIsSlice(s: seq<char>, i: nat, lit: seq<char>)
    ensures HasAt(s, i, lit) <==> i + |lit| <= |s| && s[i..i + |lit|] == lit
    decreases |lit|
  {
    if |lit| > 0 && i + |lit| <= |s| {
      HasAtIsSlice(s, i + 1, lit[1..]);
      assert s[i..i + |lit|] == [s[i]] + s[i + 1..i + 1 + |lit[1..]|];
      assert lit == [lit[0]] + lit[1..];
    }
  }

  /**
   * The end of the longest run of class-`k` characters starting at `i`: what
   * a greedy repetition of the class consumes from `i`.
   */
  function RunEnd(s: seq<char>, i: nat, k: Class): (e: nat)
    requires i <= |s|
    ensures i <= e <= |s| && AllIn(s, i, e, k)
    ensures e < |s| ==> !In(s[e], k)
    decreases |s| - i
  {
    if i < |s| && In(s[i], k) then RunEnd(s, i + 1, k) else i
  }

  /** A greedy run from `a` reaches at least as far as any class-`k` stretch from `a`. */
  lemma RunCovers(s: seq<char>, a: nat, b: nat, k: Class)
    requires AllIn(s, a, b, k)
    ensures RunEnd(s, a, k) >= b
  {
  }

  /** Class membership of a stretch of `s` read inside the slice `s[i..e]`. */
  lemma AllInSlice(s: seq<char>, i: nat, e: nat, a: nat, b: nat, k: Class)
    requires i <= a <= b <= e <= |s|
    ensures AllIn(s, a, b, k) <==> AllIn(s[i..e], a - i, b - i, k)
  {
    assert forall j :: a - i <= j < b - i ==> s[i..e][j] == s[i + j];
  }

  /** An occurrence in `s` read inside the slice `s[i..e]`. */
  lemma {:induction false} HasAtSlice(s: seq<char>, i: nat, e: nat, j: nat, lit: seq<char>)
    requires i <= e <= |s| && i + j + |lit| <= e
    ensures HasAt(s, i + j, lit) <==> HasAt(s[i..e], j, lit)
    decreases |lit|
  {
    if |lit| > 0 {
      HasAtSlice(s, i, e, j + 1, lit[1..]);
    }
  }

  /** `lit` occurs at the start of `lit + b`. */
  lemma HasAtStart(lit: seq<char>, b: seq<char>)
    ensures HasAt(lit + b, 0, lit)
  {
    HasAtIsSlice(lit + b, 0, lit);
    assert (lit + b)[..|lit|] == lit;
  }

  /** `lit` occurs where it stands in a concatenation. */
  lemma HasAtConcat(a: seq<char>, lit: seq<char>, b: seq<char>)
    ensures HasAt(a + lit + b, |a|, lit)
  {
    HasAtIsSlice(a + lit + b, |a|, lit);
    assert (a + lit + b)[|a|..|a| + |lit|] == lit;
  }

  /** An occurrence stays where it is when text is appended. */
  lemma {:induction false} HasAtExtend(s: seq<char>, t: seq<char>, i: nat, lit: seq<char>)
    requires HasAt(s, i, lit)
    ensures HasAt(s + t, i, lit)
    decreases |lit|
  {
    if |lit| > 0 {
      HasAtExtend(s, t, i + 1, lit[1..]);
    }
  }

  /** A stretch of class-`k` characters keeps its class after a prefix. */
  lemma AllInConcat(a: seq<char>, b: seq<char>, k: Class)
    requires AllIn(b, 0, |b|, k)
    ensures AllIn(a + b, |a|, |a + b|, k)
  {
    assert forall j :: |a| <= j < |a + b| ==> (a + b)[j] == b[j - |a|];
  }

}
