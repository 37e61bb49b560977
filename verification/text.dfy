/** The two pieces of Go's `strings` package the pipeline relies on:
    `TrimSpace` (with `unicode.IsSpace` as its notion of white space) and
    `HasPrefix`. Strings are sequences of code points. */
module Text {

  /** Go's `unicode.IsSpace`: the Latin-1 spaces plus the Unicode White_Space
      code points above U+00FF. */
  predicate IsSpace(c: char) {
    || c == '\t' || c == '\n' || c == '\U{000B}' || c == '\U{000C}' || c == '\r' || c == ' '
    || c == '\U{0085}' || c == '\U{00A0}' || c == '\U{1680}'
    || ('\U{2000}' <= c <= '\U{200A}')
    || c == '\U{2028}' || c == '\U{2029}' || c == '\U{202F}' || c == '\U{205F}' || c == '\U{3000}'
  }

  /** Every code point of `s` from `lo` up to (not including) `hi` is white
      space. */
  predicate SpaceBetween(s: string, lo: int, hi: int)
    requires 0 <= lo <= hi <= |s|
  {
    forall k :: lo <= k < hi ==> IsSpace(s[k])
  }

  predicate AllSpace(s: string) {
    SpaceBetween(s, 0, |s|)
  }

  /** Neither end of `s` is white space. */
  predicate Trimmed(s: string) {
    s == [] || (!IsSpace(s[0]) && !IsSpace(s[|s| - 1]))
  }

  function HasPrefix(s: string, prefix: string): bool {
    |prefix| <= |s| && s[..|prefix|] == prefix
  }

  /** Drops leading white space; what is left starts with a non-space or is
      empty. `TrimLeftSuffix` states what is dropped. */
  function TrimLeft(s: string): (r: string)
    ensures |r| <= |s|
    ensures r == [] || !IsSpace(r[0])
  {
    if |s| > 0 && IsSpace(s[0]) then TrimLeft(s[1..]) else s
  }

  /** Drops trailing white space, symmetric to `TrimLeft`; the first code
      point stays where it is. */
  function TrimRight(s: string): (r: string)
    ensures |r| <= |s|
    ensures r == [] || !IsSpace(r[|r| - 1])
    ensures r != [] ==> r[0] == s[0]
  {
    if |s| > 0 && IsSpace(s[|s| - 1]) then TrimRight(s[..|s| - 1]) else s
  }

  /** `TrimLeft` keeps a suffix and drops only white space. */
  lemma {:induction false} TrimLeftSuffix(s: string)
    ensures TrimLeft(s) == s[|s| - |TrimLeft(s)|..]
    ensures SpaceBetween(s, 0, |s| - |TrimLeft(s)|)
  {
    if |s| > 0 && IsSpace(s[0]) {
      var r := TrimLeft(s[1..]);
      TrimLeftSuffix(s[1..]);
      assert s[1..][|s| - 1 - |r|..] == s[|s| - |r|..];
      forall k | 1 <= k < |s| - |r| ensures IsSpace(s[k]) {
        assert s[k] == s[1..][k - 1];
      }
    }
  }

  /** `TrimRight` keeps a prefix and drops only white space. */
  lemma {:induction false} TrimRightPrefix(s: string)
    ensures TrimRight(s) == s[..|TrimRight(s)|]
    ensures SpaceBetween(s, |TrimRight(s)|, |s|)
  {
    if |s| > 0 && IsSpace(s[|s| - 1]) {
      var r := TrimRight(s[..|s| - 1]);
      TrimRightPrefix(s[..|s| - 1]);
      assert s[..|s| - 1][..|r|] == s[..|r|];
      forall k | |r| <= k < |s| - 1 ensures IsSpace(s[k]) {
        assert s[k] == s[..|s| - 1][k];
      }
    }
  }

  /** `strings.TrimSpace`: what is left after removing white space from both
      ends. `TrimSpaceFrames` states that it is an infix of `s` with only white
      space cut away, and `TrimSpaceUnique` that no other infix is. */
  function TrimSpace(s: string): (r: string)
    ensures Trimmed(r)
    ensures |r| <= |s|
  {
    TrimRight(TrimLeft(s))
  }

  /** `s[i..j]` is what is left of `s` once white space is cut off both ends. */
  predicate Frames(s: string, i: int, j: int) {
    && 0 <= i <= j <= |s|
    && SpaceBetween(s, 0, i) && SpaceBetween(s, j, |s|)
    && Trimmed(s[i..j])
  }

  /** The trim of `s` is an infix of `s` framed by white space. */
  lemma TrimSpaceFrames(s: string)
    ensures exists i, j :: Frames(s, i, j) && TrimSpace(s) == s[i..j]
  {
    var left := TrimLeft(s);
    var r := TrimRight(left);
    TrimLeftSuffix(s);
    TrimRightPrefix(left);
    assert r == TrimSpace(s);
    var i := |s| - |left|;
    var j := i + |r|;
    InfixOfSuffix(s, i, |r|);
    assert r == s[i..j];
    SuffixSpace(s, i, left, |r|);
    assert Frames(s, i, j);
  }

  /** White space at the end of a suffix of `s` is white space at the end of `s`. */
  lemma SuffixSpace(s: string, i: int, left: string, n: int)
    requires 0 <= i <= |s| && left == s[i..] && 0 <= n <= |left| && SpaceBetween(left, n, |left|)
    ensures SpaceBetween(s, i + n, |s|)
  {
    forall k | i + n <= k < |s| ensures IsSpace(s[k]) {
      assert s[k] == left[k - i];
    }
  }

  /** A prefix of a suffix is an infix. */
  lemma InfixOfSuffix(s: string, i: int, n: int)
    requires 0 <= i <= |s| && 0 <= n <= |s| - i
    ensures s[i..][..n] == s[i..i + n]
  {
  }

  /** A string with no white space at either end is its own trim. */
  lemma TrimSpaceOfTrimmed(s: string)
    requires Trimmed(s)
    ensures TrimSpace(s) == s
  {
  }

  /** Trimming twice is trimming once. */
  lemma TrimSpaceIdempotent(s: string)
    ensures TrimSpace(TrimSpace(s)) == TrimSpace(s)
  {
    TrimSpaceOfTrimmed(TrimSpace(s));
  }

  /** A frame is empty exactly when `s` is white space throughout. */
  lemma FrameEmptyIffAllSpace(s: string, i: int, j: int)
    requires Frames(s, i, j)
    ensures i == j <==> AllSpace(s)
  {
    if i < j {
      assert s[i] == s[i..j][0];
    }
  }

  /** Only one infix frames `s`. */
  lemma FramesUnique(s: string, i: int, j: int, a: int, b: int)
    requires Frames(s, i, j) && Frames(s, a, b)
    ensures s[i..j] == s[a..b]
  {
    FrameEmptyIffAllSpace(s, i, j);
    FrameEmptyIffAllSpace(s, a, b);
    if i < j {
      assert s[i] == s[i..j][0] && s[a] == s[a..b][0];
      assert s[j - 1] == s[i..j][j - i - 1] && s[b - 1] == s[a..b][b - a - 1];
    }
  }

  /** The contracts of `TrimSpace` pin its result down: any trimmed infix of
      `s` framed by white space on both sides is the trim of `s`. */
  lemma TrimSpaceUnique(s: string, i: int, j: int)
    requires Frames(s, i, j)
    ensures TrimSpace(s) == s[i..j]
  {
    var r := TrimSpace(s);
    TrimSpaceFrames(s);
    var a, b :| Frames(s, a, b) && r == s[a..b];
    FramesUnique(s, i, j, a, b);
  }
}
