/** The string primitives of Python that the calculator relies on: `str.isspace`,
    `str.strip`, `str.split()` (no separator), `str.lower`, `str.replace(pat, "")`
    and the code-point order `sorted` uses on strings. */
module Text {

  /** The code points for which Python's `str.isspace` holds. */
  predicate IsSpace(c: char) {
    var n := c as int;
    (9 <= n <= 13) || (28 <= n <= 32) || n == 0x85 || n == 0xA0 || n == 0x1680
    || (0x2000 <= n <= 0x200A) || n == 0x2028 || n == 0x2029 || n == 0x202F
    || n == 0x205F || n == 0x3000
  }

  predicate AllSpace(s: string) {
    forall k :: 0 <= k < |s| ==> IsSpace(s[k])
  }

  predicate NoSpace(s: string) {
    forall k :: 0 <= k < |s| ==> !IsSpace(s[k])
  }

  // ---------------------------------------------------------------- strip

  /** `s.lstrip()`: the suffix of `s` left after dropping leading whitespace. */
  function StripLeft(s: string): (r: string)
    ensures |r| <= |s| && r == s[|s| - |r|..]
    ensures AllSpace(s[..|s| - |r|])
    ensures |r| > 0 ==> !IsSpace(r[0])
  {
    if |s| > 0 && IsSpace(s[0]) then StripLeft(s[1..]) else s
  }

  /** `s.rstrip()`: the prefix of `s` left after dropping trailing whitespace. */
  function StripRight(s: string): (r: string)
    ensures |r| <= |s| && r == s[..|r|]
    ensures AllSpace(s[|r|..])
    ensures |r| > 0 ==> !IsSpace(r[|r| - 1])
  {
    if |s| > 0 && IsSpace(s[|s| - 1]) then StripRight(s[..|s| - 1]) else s
  }

  /** `s.strip()`. */
  function Strip(s: string): string {
    StripRight(StripLeft(s))
  }

  /** `s.strip()` is the slice `s[i..j]` that only whitespace surrounds and that
      neither starts nor ends with whitespace. */
  lemma StripIsTrimmedSlice(s: string) returns (i: nat, j: nat)
    ensures i <= j <= |s| && Strip(s) == s[i..j]
    ensures AllSpace(s[..i]) && AllSpace(s[j..])
    ensures |Strip(s)| > 0 ==> !IsSpace(Strip(s)[0]) && !IsSpace(Strip(s)[|Strip(s)| - 1])
  {
    var l := StripLeft(s);
    var r := StripRight(l);
    i := |s| - |l|;
    j := i + |r|;
    assert r == s[i..j];
    assert s[j..] == l[|r|..];
  }

  /** `s.strip()` is empty exactly when `s` is all whitespace. */
  lemma StripEmptyIffAllSpace(s: string)
    ensures Strip(s) == [] <==> AllSpace(s)
  {
    var l := StripLeft(s);
    var r := StripRight(l);
    if r == [] {
      assert l == [];
      forall k | 0 <= k < |s| ensures IsSpace(s[k]) { assert s[k] == s[..|s|][k]; }
    } else {
      var i := |s| - |l|;
      assert s[i] == r[0];
    }
  }

  // ---------------------------------------------------------------- split

  /** Length of the run of non-whitespace characters that `s` starts with. */
  function TokenLength(s: string): (n: nat)
    ensures n <= |s|
    ensures NoSpace(s[..n])
    ensures n < |s| ==> IsSpace(s[n])
  {
    if |s| == 0 || IsSpace(s[0]) then 0 else 1 + TokenLength(s[1..])
  }

  /** `s.split()`: the maximal runs of non-whitespace characters, left to right. */
  function Split(s: string): (r: seq<string>)
    ensures forall t :: t in r ==> |t| > 0 && NoSpace(t)
    decreases |s|
  {
    if |s| == 0 then []
    else if IsSpace(s[0]) then Split(s[1..])
    else
      var n := TokenLength(s);
      [s[..n]] + Split(s[n..])
  }

  /** The characters of `s` that are not whitespace, in order. */
  function Squeeze(s: string): string {
    if |s| == 0 then [] else (if IsSpace(s[0]) then [] else [s[0]]) + Squeeze(s[1..])
  }

  function Concat(ts: seq<string>): string {
    if |ts| == 0 then [] else ts[0] + Concat(ts[1..])
  }

  lemma {:induction false} SqueezeAppend(a: string, b: string)
    ensures Squeeze(a + b) == Squeeze(a) + Squeeze(b)
  {
    if |a| > 0 {
      assert (a + b)[1..] == a[1..] + b;
      SqueezeAppend(a[1..], b);
    } else {
      assert a + b == b;
    }
  }

  lemma {:induction false} SqueezeNoSpace(s: string)
    requires NoSpace(s)
    ensures Squeeze(s) == s
  {
    if |s| > 0 { SqueezeNoSpace(s[1..]); }
  }

  /** Splitting loses exactly the whitespace: gluing the tokens back together gives
      the non-whitespace characters of the input in their original order. */
  lemma {:induction false} SplitKeepsEveryOtherChar(s: string)
    ensures Concat(Split(s)) == Squeeze(s)
    decreases |s|
  {
    if |s| == 0 {
    } else if IsSpace(s[0]) {
      SplitKeepsEveryOtherChar(s[1..]);
    } else {
      var n := TokenLength(s);
      SplitKeepsEveryOtherChar(s[n..]);
      assert s == s[..n] + s[n..];
      SqueezeAppend(s[..n], s[n..]);
      SqueezeNoSpace(s[..n]);
      assert Split(s)[1..] == Split(s[n..]);
    }
  }

  /** `s.split()` is empty exactly when `s` is all whitespace. */
  lemma {:induction false} SplitEmptyIffAllSpace(s: string)
    ensures Split(s) == [] <==> AllSpace(s)
    decreases |s|
  {
    if |s| > 0 && IsSpace(s[0]) {
      SplitEmptyIffAllSpace(s[1..]);
      if AllSpace(s[1..]) {
        forall k | 0 <= k < |s| ensures IsSpace(s[k]) { if k > 0 { assert s[k] == s[1..][k - 1]; } }
      }
    }
  }

  lemma {:induction false} SplitSkipsSpacePrefix(w: string, s: string)
    requires AllSpace(w)
    ensures Split(w + s) == Split(s)
    decreases |w|
  {
    if |w| > 0 {
      assert (w + s)[1..] == w[1..] + s;
      SplitSkipsSpacePrefix(w[1..], s);
    } else {
      assert w + s == s;
    }
  }

  lemma {:induction false} SplitSkipsSpaceSuffix(s: string, w: string)
    requires AllSpace(w)
    ensures Split(s + w) == Split(s)
    decreases |s|
  {
    if |s| == 0 {
      assert s + w == w;
      SplitEmptyIffAllSpace(w);
    } else if IsSpace(s[0]) {
      assert (s + w)[1..] == s[1..] + w;
      SplitSkipsSpaceSuffix(s[1..], w);
    } else {
      var n := TokenLength(s);
      var m := TokenLength(s + w);
      assert (s + w)[..n] == s[..n];
      if n < |s| {
        assert (s + w)[n] == s[n];
      } else if |w| > 0 {
        assert (s + w)[n] == w[0];
      }
      assert m == n by {
        TokenLengthOfPrefix(s + w, n);
      }
      assert (s + w)[n..] == s[n..] + w;
      SplitSkipsSpaceSuffix(s[n..], w);
    }
  }

  /** A word on its own is the one token `split()` gives. */
  lemma SplitWord(w: string)
    requires |w| > 0 && NoSpace(w)
    ensures Split(w) == [w]
  {
    TokenLengthOfPrefix(w, |w|);
    assert w[..|w|] == w;
    assert w[|w|..] == [];
  }

  /** A word followed by whitespace is the first token, and the tokens after it are
      those of the rest: together with `SplitWord` and `SplitSkipsSpacePrefix`, this
      makes every token a maximal run of non-whitespace characters. */
  lemma SplitWordThenSpace(w: string, gap: string, rest: string)
    requires |w| > 0 && NoSpace(w) && |gap| > 0 && AllSpace(gap)
    ensures Split(w + gap + rest) == [w] + Split(rest)
  {
    var s := w + gap + rest;
    assert s[..|w|] == w;
    assert s[|w|] == gap[0];
    TokenLengthOfPrefix(s, |w|);
    assert s[|w|..] == gap + rest;
    SplitSkipsSpacePrefix(gap, rest);
  }

  /** TokenLength is determined by its three ensures. */
  lemma {:induction false} TokenLengthOfPrefix(s: string, n: nat)
    requires n <= |s| && NoSpace(s[..n]) && (n < |s| ==> IsSpace(s[n]))
    ensures TokenLength(s) == n
  {
    if n > 0 {
      assert s[0] == s[..n][0];
      assert s[1..][..n - 1] == s[..n][1..];
      if n < |s| { assert s[1..][n - 1] == s[n]; }
      TokenLengthOfPrefix(s[1..], n - 1);
    }
  }

  /** A string is the concatenation of the three pieces two cuts make. */
  lemma ThreePieces(s: string, i: nat, j: nat)
    requires i <= j <= |s|
    ensures s == s[..i] + (s[i..j] + s[j..])
  {
    assert s[i..] == s[i..j] + s[j..];
  }

  /** A string without whitespace is its own `strip()`. */
  lemma StripOfNoSpace(s: string)
    requires NoSpace(s)
    ensures Strip(s) == s
  {
    if |s| > 0 {
      assert !IsSpace(s[0]) && !IsSpace(s[|s| - 1]);
    }
  }

  // ---------------------------------------------------------------- lower

  /** `c.lower()` for the ASCII letters; every other character is kept. */
  function LowerChar(c: char): char {
    if 'A' <= c <= 'Z' then (c as int + 32) as char else c
  }

  /** `s.lower()`, character by character. */
  function Lower(s: string): (r: string)
    ensures |r| == |s|
  {
    if |s| == 0 then [] else [LowerChar(s[0])] + Lower(s[1..])
  }

  lemma {:induction false} LowerAt(s: string, k: nat)
    requires k < |s|
    ensures Lower(s)[k] == LowerChar(s[k])
  {
    if k > 0 { LowerAt(s[1..], k - 1); }
  }

  /** Lower-casing keeps whitespace where it was, so the order of `strip` and `lower`
      does not change which characters are whitespace. */
  lemma LowerKeepsSpaces(s: string)
    ensures AllSpace(Lower(s)) <==> AllSpace(s)
  {
    forall k | 0 <= k < |s| ensures IsSpace(Lower(s)[k]) == IsSpace(s[k]) { LowerAt(s, k); }
  }

  // ---------------------------------------------------------------- replace

  /** `s` contains `pat` at some position. */
  predicate Occurs(s: string, pat: string) {
    exists i :: 0 <= i <= |s| && MatchAt(s, pat, i)
  }

  /** `pat` stands in `s` at position `i`. */
  predicate MatchAt(s: string, pat: string, i: nat) {
    i + |pat| <= |s| && s[i..i + |pat|] == pat
  }

  /** An occurrence in the tail of `s` is an occurrence in `s`. */
  lemma OccursInTail(s: string, pat: string)
    requires |s| > 0 && Occurs(s[1..], pat)
    ensures Occurs(s, pat)
  {
    var i :| 0 <= i <= |s[1..]| && MatchAt(s[1..], pat, i);
    assert s[i + 1..i + 1 + |pat|] == s[1..][i..i + |pat|];
    assert MatchAt(s, pat, i + 1);
  }

  /** `s.replace(pat, "")` for a non-empty `pat`: the occurrences found scanning left
      to right, without overlap, are removed. */
  function RemoveAll(s: string, pat: string): (r: string)
    requires |pat| > 0
    ensures |r| <= |s|
    decreases |s|
  {
    if |s| < |pat| then s
    else if s[..|pat|] == pat then RemoveAll(s[|pat|..], pat)
    else [s[0]] + RemoveAll(s[1..], pat)
  }

  /** No proper prefix of `pat` is also a suffix of it. */
  predicate Borderless(pat: string) {
    forall m :: 0 < m < |pat| ==> pat[..m] != pat[|pat| - m..]
  }

  /** Removing a borderless pattern from `s + pat`, when `s` has no occurrence of it,
      takes off exactly the trailing copy: no earlier match can straddle the seam. */
  lemma {:induction false} RemoveAllTrailing(s: string, pat: string)
    requires |pat| > 0 && Borderless(pat) && !Occurs(s, pat)
    ensures RemoveAll(s + pat, pat) == s
    decreases |s|
  {
    var t := s + pat;
    if |s| == 0 {
      assert t == pat && t[..|pat|] == pat;
      assert t[|pat|..] == [];
    } else {
      assert t[..|pat|] != pat by {
        if |s| >= |pat| {
          assert t[..|pat|] == s[0..|pat|] && !MatchAt(s, pat, 0);
        } else {
          var m := |pat| - |s|;
          assert t[|s|..|pat|] == pat[..m];
        }
      }
      assert !Occurs(s[1..], pat) by {
        if Occurs(s[1..], pat) { OccursInTail(s, pat); }
      }
      assert t[1..] == s[1..] + pat;
      RemoveAllTrailing(s[1..], pat);
      assert [s[0]] + s[1..] == s;
    }
  }

  // ---------------------------------------------------------------- order

  /** Python's `<` on strings: code-point lexicographic order. */
  predicate LexLess(a: string, b: string)
    decreases |a|
  {
    |b| > 0 && (|a| == 0 || a[0] < b[0] || (a[0] == b[0] && LexLess(a[1..], b[1..])))
  }

  /** No string is less than itself. */
  lemma {:induction false} LexLessIrreflexive(a: string)
    ensures !LexLess(a, a)
  {
    if |a| > 0 { LexLessIrreflexive(a[1..]); }
  }

  lemma {:induction false} LexLessTransitive(a: string, b: string, c: string)
    requires LexLess(a, b) && LexLess(b, c)
    ensures LexLess(a, c)
    decreases |a|
  {
    if |a| > 0 && a[0] == b[0] && b[0] == c[0] {
      LexLessTransitive(a[1..], b[1..], c[1..]);
    }
  }

  lemma {:induction false} LexLessTotal(a: string, b: string)
    requires a != b
    ensures LexLess(a, b) || LexLess(b, a)
    decreases |a|
  {
    if |a| > 0 && |b| > 0 && a[0] == b[0] {
      assert a == [a[0]] + a[1..] && b == [b[0]] + b[1..];
      LexLessTotal(a[1..], b[1..]);
    }
  }

  /** Every non-empty finite set of strings has a least element. */
  lemma {:induction false} Least(keys: set<string>) returns (m: string)
    requires keys != {}
    ensures m in keys && forall k :: k in keys && k != m ==> LexLess(m, k)
    decreases |keys|
  {
    var x :| x in keys;
    var rest := keys - {x};
    if rest == {} {
      m := x;
      forall k | k in keys ensures k == x { assert k !in rest; }
    } else {
      var y := Least(rest);
      LexLessTotal(y, x);
      if LexLess(y, x) {
        m := y;
      } else {
        m := x;
        forall k | k in keys && k != x ensures LexLess(x, k) {
          if k != y { LexLessTransitive(x, y, k); }
        }
      }
    }
  }
}
