/**
 * The string operations of Python that the downloader relies on, written out
 * on `seq<char>`: `str.split()` without a separator, `str.split(c)`,
 * `str.replace`, `sep.join`, the `in` substring test, `str.lower()` and
 * `str.startswith`.
 */
module Text {
  import opened Wrappers

  /** Python's `str.isspace()` for one character: the separators of `str.split()`. */
  predicate IsSpace(c: char) {
    || c == ' '
    || ('\t' <= c <= '\r')
    || ('\U{1C}' <= c <= '\U{1F}')
    || c == '\U{85}'
    || c == '\U{A0}'
    || c == '\U{1680}'
    || ('\U{2000}' <= c <= '\U{200A}')
    || c == '\U{2028}'
    || c == '\U{2029}'
    || c == '\U{202F}'
    || c == '\U{205F}'
    || c == '\U{3000}'
  }

  predicate AllSpace(s: string) {
    forall i | 0 <= i < |s| :: IsSpace(s[i])
  }

  predicate NoSpace(s: string) {
    forall i | 0 <= i < |s| :: !IsSpace(s[i])
  }

  /** `c` does not occur in `s`; stated by index so that it can be checked on literals. */
  predicate Lacks(s: string, c: char) {
    forall i | 0 <= i < |s| :: s[i] != c
  }

  /** No character of `s` occurs in `t`. */
  predicate Disjoint(s: string, t: string) {
    forall i | 0 <= i < |s| :: s[i] !in t
  }

  /** Python's `s.startswith(p)`. */
  predicate HasPrefix(s: string, p: string) {
    |p| <= |s| && s[..|p|] == p
  }

  predicate OccursAt(s: string, sub: string, i: int) {
    0 <= i && i + |sub| <= |s| && s[i..i + |sub|] == sub
  }

  /** Python's `sub in s`. */
  predicate Contains(s: string, sub: string) {
    exists i | 0 <= i <= |s| - |sub| :: OccursAt(s, sub, i)
  }

  lemma LacksConcat(a: string, b: string, c: char)
    requires Lacks(a, c) && Lacks(b, c)
    ensures Lacks(a + b, c)
  {
  }

  lemma LacksNotIn(s: string, c: char)
    requires Lacks(s, c)
    ensures c !in s
  {
  }

  /** A string that lacks one character of `sub` cannot contain `sub`. */
  lemma NotContainsByChar(s: string, sub: string, k: nat)
    requires k < |sub| && Lacks(s, sub[k])
    ensures !Contains(s, sub)
  {
    forall i | 0 <= i <= |s| - |sub|
      ensures !OccursAt(s, sub, i)
    {
      assert s[i..i + |sub|][k] == s[i + k] != sub[k];
    }
  }

  /**
   * `sub` does not occur in `x + y + z` when it occurs neither in `x` nor in
   * `z` and `y` is non-empty and shares no character with `sub`: no
   * occurrence can reach across `y`.
   */
  lemma NotContainsAcross(x: string, y: string, z: string, sub: string)
    requires |sub| > 0 && |y| > 0 && Disjoint(y, sub)
    requires !Contains(x, sub) && !Contains(z, sub)
    ensures !Contains(x + y + z, sub)
  {
    var s := x + y + z;
    forall i | 0 <= i <= |s| - |sub|
      ensures !OccursAt(s, sub, i)
    {
      if i + |sub| <= |x| {
        assert s[i..i + |sub|] == x[i..i + |sub|];
        assert !OccursAt(x, sub, i);
      } else if i >= |x| + |y| {
        var j := i - |x| - |y|;
        assert s[i..i + |sub|] == z[j..j + |sub|];
        assert !OccursAt(z, sub, j);
      } else {
        var p := if i < |x| then |x| else i;
        assert s[p] == y[p - |x|];
        assert s[i..i + |sub|][p - i] == s[p];
        assert s[p] !in sub;
      }
    }
  }

  lemma ContainsPrefix(s: string, p: string)
    requires HasPrefix(s, p)
    ensures Contains(s, p)
  {
    assert OccursAt(s, p, 0);
  }

  /** An occurrence in the tail is an occurrence in the whole. */
  lemma ContainsTail(s: string, sub: string)
    requires s != []
    ensures Contains(s[1..], sub) ==> Contains(s, sub)
  {
    if Contains(s[1..], sub) {
      var i :| 0 <= i <= |s[1..]| - |sub| && OccursAt(s[1..], sub, i);
      assert s[i + 1..i + 1 + |sub|] == s[1..][i..i + |sub|];
      assert OccursAt(s, sub, i + 1);
    }
  }

  /**
   * `sub` occurs at `k` and `s[from..k]` holds no line break: `.*` starting
   * at `from` can stretch up to an occurrence of `sub` at `k`.
   */
  predicate LineMatchAt(s: string, from: nat, sub: string, k: nat) {
    from <= k && OccursAt(s, sub, k) && Lacks(s[from..k], '\n')
  }

  /**
   * The last `k <= j` at which a greedy `.*` starting at `from` can be
   * followed by `sub`; `None` when there is no such `k`.
   */
  function LastInLine(s: string, from: nat, sub: string, j: int): (r: Option<nat>)
    ensures r.Some? ==> r.value <= j && LineMatchAt(s, from, sub, r.value)
    decreases j - from
  {
    if j < from then None
    else if LineMatchAt(s, from, sub, j) then Some(j)
    else LastInLine(s, from, sub, j - 1)
  }

  /** What `LastInLine` finds is the last match up to `j`, and `None` means there is none. */
  lemma {:induction false} LastInLineIsLast(s: string, from: nat, sub: string, j: int)
    ensures LastInLine(s, from, sub, j).Some? ==> forall k: nat | LastInLine(s, from, sub, j).value < k <= j :: !LineMatchAt(s, from, sub, k)
    ensures LastInLine(s, from, sub, j).None? ==> forall k: nat | k <= j :: !LineMatchAt(s, from, sub, k)
    decreases j - from
  {
    if j >= from && !LineMatchAt(s, from, sub, j) {
      LastInLineIsLast(s, from, sub, j - 1);
    }
  }

  /** The occurrence at `k` is the last one when nothing matches between `k` and `j`. */
  lemma {:induction false} LastInLineIs(s: string, from: nat, sub: string, j: int, k: nat)
    requires k <= j && LineMatchAt(s, from, sub, k)
    requires forall m: nat | k < m <= j :: !OccursAt(s, sub, m)
    ensures LastInLine(s, from, sub, j) == Some(k)
    decreases j - k
  {
    if k < j {
      assert !OccursAt(s, sub, j);
      LastInLineIs(s, from, sub, j - 1, k);
    }
  }

  // ---------------------------------------------------------------------------
  // str.split() without a separator

  /** The index of the first space at or after `i`, or `|s|`. */
  function WordEnd(s: string, i: nat): (e: nat)
    requires i <= |s|
    ensures i <= e <= |s|
    ensures forall k | i <= k < e :: !IsSpace(s[k])
    ensures e == |s| || IsSpace(s[e])
    decreases |s| - i
  {
    if i == |s| || IsSpace(s[i]) then i else WordEnd(s, i + 1)
  }

  /** Python's `s.split()`: the maximal runs of non-space characters, in order. */
  function Split(s: string): (r: seq<string>)
    ensures forall k | 0 <= k < |r| :: r[k] != [] && NoSpace(r[k])
    ensures r == [] <==> AllSpace(s)
    decreases |s|
  {
    if s == [] then []
    else if IsSpace(s[0]) then Split(s[1..])
    else
      var e := WordEnd(s, 0);
      [s[..e]] + Split(s[e..])
  }

  /** The characters of `s` that are not spaces. */
  function RemoveSpaces(s: string): string {
    if s == [] then [] else (if IsSpace(s[0]) then [] else [s[0]]) + RemoveSpaces(s[1..])
  }

  function Concat(ws: seq<string>): string {
    if ws == [] then [] else ws[0] + Concat(ws[1..])
  }

  lemma RemoveSpacesConcat(a: string, b: string)
    ensures RemoveSpaces(a + b) == RemoveSpaces(a) + RemoveSpaces(b)
  {
    if a != [] {
      var h := if IsSpace(a[0]) then [] else [a[0]];
      assert (a + b)[0] == a[0];
      assert (a + b)[1..] == a[1..] + b;
      RemoveSpacesConcat(a[1..], b);
      calc {
        RemoveSpaces(a + b);
        h + RemoveSpaces(a[1..] + b);
        h + (RemoveSpaces(a[1..]) + RemoveSpaces(b));
        (h + RemoveSpaces(a[1..])) + RemoveSpaces(b);
      }
    } else {
      assert a + b == b;
    }
  }

  lemma RemoveSpacesOfWord(w: string)
    requires NoSpace(w)
    ensures RemoveSpaces(w) == w
  {
    if w != [] {
      RemoveSpacesOfWord(w[1..]);
    }
  }

  /** The words of `s.split()` are exactly the non-space characters of `s`, in order. */
  lemma {:induction false} SplitKeepsAllNonSpace(s: string)
    ensures Concat(Split(s)) == RemoveSpaces(s)
    decreases |s|
  {
    if s == [] {
    } else if IsSpace(s[0]) {
      SplitKeepsAllNonSpace(s[1..]);
    } else {
      var e := WordEnd(s, 0);
      assert s == s[..e] + s[e..];
      SplitKeepsAllNonSpace(s[e..]);
      RemoveSpacesConcat(s[..e], s[e..]);
      RemoveSpacesOfWord(s[..e]);
      assert Split(s) == [s[..e]] + Split(s[e..]);
      assert Concat(Split(s)) == s[..e] + Concat(Split(s[e..]));
    }
  }

  /** Leading spaces do not change `split()`. */
  lemma {:induction false} SplitAfterSpaces(w: string, s: string)
    requires AllSpace(w)
    ensures Split(w + s) == Split(s)
    decreases |w|
  {
    if w != [] {
      var t := w + s;
      assert t[0] == w[0] && IsSpace(t[0]);
      assert t[1..] == w[1..] + s;
      SplitAfterSpaces(w[1..], s);
      assert Split(t) == Split(t[1..]);
    } else {
      assert w + s == s;
    }
  }

  lemma {:induction false} WordEndAt(s: string, i: nat, j: nat)
    requires i <= j <= |s|
    requires forall k | i <= k < j :: !IsSpace(s[k])
    requires j == |s| || IsSpace(s[j])
    ensures WordEnd(s, i) == j
    decreases j - i
  {
    if i < j {
      WordEndAt(s, i + 1, j);
    }
  }

  /** A word followed by a space (or by nothing) is the first item of `split()`. */
  lemma SplitWordFirst(x: string, s: string)
    requires x != [] && NoSpace(x)
    requires s == [] || IsSpace(s[0])
    ensures Split(x + s) == [x] + Split(s)
  {
    var t := x + s;
    WordEndAt(t, 0, |x|);
    assert t[..|x|] == x && t[|x|..] == s;
  }

  lemma SplitPadded(w1: string, x: string, w2: string)
    requires AllSpace(w1) && AllSpace(w2) && x != [] && NoSpace(x)
    ensures Split(w1 + x + w2) == [x]
  {
    SplitAfterSpaces(w1, x + w2);
    assert w1 + x + w2 == w1 + (x + w2);
    SplitWordFirst(x, w2);
  }

  lemma SplitPadded2(w1: string, x: string, gap: string, y: string, w2: string)
    requires AllSpace(w1) && AllSpace(w2) && gap != [] && AllSpace(gap)
    requires x != [] && NoSpace(x) && y != [] && NoSpace(y)
    ensures Split(w1 + x + gap + y + w2) == [x, y]
  {
    var rest := x + (gap + (y + w2));
    JoinFive(w1, x, gap, y, w2);
    SplitAfterSpaces(w1, rest);
    SplitTwoWords(x, gap, y, w2);
  }

  lemma JoinFive(a: string, b: string, c: string, d: string, e: string)
    ensures a + b + c + d + e == a + (b + (c + (d + e)))
  {
  }

  /** Two words with spaces between them and spaces after them. */
  lemma SplitTwoWords(x: string, gap: string, y: string, w2: string)
    requires AllSpace(w2) && gap != [] && AllSpace(gap)
    requires x != [] && NoSpace(x) && y != [] && NoSpace(y)
    ensures Split(x + (gap + (y + w2))) == [x, y]
  {
    SplitWordFirst(x, gap + (y + w2));
    SplitAfterSpaces(gap, y + w2);
    SplitWordFirst(y, w2);
    assert Split(w2) == [];
  }

  // ---------------------------------------------------------------------------
  // str.replace

  /** Python's `s.replace(pat, rep)`: every non-overlapping occurrence, left to right. */
  function Replace(s: string, pat: string, rep: string): string
    requires pat != []
    decreases |s|
  {
    if |s| < |pat| then s
    else if s[..|pat|] == pat then rep + Replace(s[|pat|..], pat, rep)
    else [s[0]] + Replace(s[1..], pat, rep)
  }

  /** Replacing a pattern that does not occur changes nothing. */
  lemma {:induction false} ReplaceAbsent(s: string, pat: string, rep: string)
    requires pat != [] && !Contains(s, pat)
    ensures Replace(s, pat, rep) == s
    decreases |s|
  {
    if |s| >= |pat| {
      assert s[..|pat|] != pat by { assert !OccursAt(s, pat, 0); }
      if Contains(s[1..], pat) {
        var i :| 0 <= i <= |s[1..]| - |pat| && OccursAt(s[1..], pat, i);
        assert s[i + 1..i + 1 + |pat|] == s[1..][i..i + |pat|];
        assert OccursAt(s, pat, i + 1);
      }
      ReplaceAbsent(s[1..], pat, rep);
    }
  }

  /** Replacing a pattern by itself changes nothing. */
  lemma {:induction false} ReplaceSame(s: string, pat: string)
    requires pat != []
    ensures Replace(s, pat, pat) == s
    decreases |s|
  {
    if |s| >= |pat| {
      if s[..|pat|] == pat {
        ReplaceSame(s[|pat|..], pat);
        assert s == s[..|pat|] + s[|pat|..];
      } else {
        ReplaceSame(s[1..], pat);
        assert s == [s[0]] + s[1..];
      }
    }
  }

  /** Substitution of one character by a string, character by character. */
  function Subst(s: string, c: char, rep: string): string {
    if s == [] then [] else (if s[0] == c then rep else [s[0]]) + Subst(s[1..], c, rep)
  }

  /** For a one-character pattern, `replace` is a substitution of characters. */
  lemma {:induction false} ReplaceOneChar(s: string, c: char, rep: string)
    ensures Replace(s, [c], rep) == Subst(s, c, rep)
    decreases |s|
  {
    if s != [] {
      ReplaceOneChar(s[1..], c, rep);
      assert s[..1] == [s[0]];
    }
  }

  lemma {:induction false} SubstConcat(a: string, b: string, c: char, rep: string)
    ensures Subst(a + b, c, rep) == Subst(a, c, rep) + Subst(b, c, rep)
    decreases |a|
  {
    if a != [] {
      var h := if a[0] == c then rep else [a[0]];
      assert (a + b)[0] == a[0];
      assert (a + b)[1..] == a[1..] + b;
      SubstConcat(a[1..], b, c, rep);
      calc {
        Subst(a + b, c, rep);
        h + Subst(a[1..] + b, c, rep);
        h + (Subst(a[1..], c, rep) + Subst(b, c, rep));
        (h + Subst(a[1..], c, rep)) + Subst(b, c, rep);
      }
    } else {
      assert a + b == b;
    }
  }

  lemma {:induction false} SubstAbsent(s: string, c: char, rep: string)
    requires Lacks(s, c)
    ensures Subst(s, c, rep) == s
    decreases |s|
  {
    if s != [] {
      SubstAbsent(s[1..], c, rep);
    }
  }

  /** After substituting `c` by a string that lacks `c`, no `c` is left. */
  lemma {:induction false} SubstRemoves(s: string, c: char, rep: string)
    requires Lacks(rep, c)
    ensures Lacks(Subst(s, c, rep), c)
    decreases |s|
  {
    if s != [] {
      SubstRemoves(s[1..], c, rep);
    }
  }

  /** After substituting `c`, the characters other than `c` that are missing from `s` and `rep` are still missing. */
  lemma {:induction false} SubstKeepsLacks(s: string, c: char, rep: string, d: char)
    requires Lacks(s, d) && Lacks(rep, d)
    ensures Lacks(Subst(s, c, rep), d)
    decreases |s|
  {
    if s != [] {
      SubstKeepsLacks(s[1..], c, rep, d);
    }
  }

  // ---------------------------------------------------------------------------
  // str.split(c), sep.join, slicing

  /** The index of the first `c` in `s`, or `|s|`. */
  function IndexOf(s: string, c: char): (i: nat)
    ensures i <= |s|
    ensures i < |s| ==> s[i] == c
    ensures Lacks(s[..i], c)
  {
    if s == [] then 0
    else if s[0] == c then 0
    else 1 + IndexOf(s[1..], c)
  }

  lemma {:induction false} IndexOfAbsent(s: string, c: char)
    requires Lacks(s, c)
    ensures IndexOf(s, c) == |s|
    decreases |s|
  {
    if s != [] {
      IndexOfAbsent(s[1..], c);
    }
  }

  lemma {:induction false} IndexOfAt(s: string, c: char, i: nat)
    requires i < |s| && s[i] == c && Lacks(s[..i], c)
    ensures IndexOf(s, c) == i
    decreases i
  {
    if i > 0 {
      assert s[0] == s[..i][0];
      assert s[1..][..i - 1] == s[..i][1..];
      IndexOfAt(s[1..], c, i - 1);
    }
  }

  /** Python's `s.split(c)` for a one-character separator: always at least one piece. */
  function SplitOn(s: string, c: char): (r: seq<string>)
    ensures |r| >= 1
    ensures forall k | 0 <= k < |r| :: Lacks(r[k], c)
    decreases |s|
  {
    var i := IndexOf(s, c);
    if i == |s| then [s] else [s[..i]] + SplitOn(s[i + 1..], c)
  }

  /** Python's `sep.join(parts)`. */
  function Join(sep: string, parts: seq<string>): string {
    if parts == [] then []
    else if |parts| == 1 then parts[0]
    else parts[0] + sep + Join(sep, parts[1..])
  }

  /** Joining the pieces of `split(c)` with `c` gives back the string. */
  lemma {:induction false} JoinSplitOn(s: string, c: char)
    ensures Join([c], SplitOn(s, c)) == s
    decreases |s|
  {
    var i := IndexOf(s, c);
    if i < |s| {
      var rest := s[i + 1..];
      JoinSplitOn(rest, c);
      var tail := SplitOn(rest, c);
      assert SplitOn(s, c) == [s[..i]] + tail;
      assert Join([c], SplitOn(s, c)) == s[..i] + [c] + Join([c], tail);
      assert s == s[..i] + [c] + rest;
    }
  }

  /** Python's `xs[start:stop]` for `0 <= start` and a negative `stop`, counted from the end. */
  function SliceFromTo<T>(xs: seq<T>, start: nat, fromEnd: nat): (r: seq<T>)
    ensures |xs| >= start + fromEnd ==> r == xs[start..|xs| - fromEnd]
    ensures |xs| < start + fromEnd ==> r == []
  {
    if |xs| >= start + fromEnd then xs[start..|xs| - fromEnd] else []
  }

  // ---------------------------------------------------------------------------
  // str.lower

  /** Lower case for ASCII and Latin-1 letters. */
  function LowerChar(c: char): char {
    if 'A' <= c <= 'Z' || ('\U{C0}' <= c <= '\U{DE}' && c != '\U{D7}') then
      (c as int + 32) as char
    else c
  }

  function Lower(s: string): (r: string)
    ensures |r| == |s|
    ensures forall i | 0 <= i < |s| :: r[i] == LowerChar(s[i])
  {
    seq(|s|, i requires 0 <= i < |s| => LowerChar(s[i]))
  }

  lemma LowerConcat(a: string, b: string)
    ensures Lower(a + b) == Lower(a) + Lower(b)
  {
  }

  /** A string whose characters are all fixed by `LowerChar` is its own lower case. */
  lemma LowerFixed(s: string)
    requires forall k | 0 <= k < |s| :: LowerChar(s[k]) == s[k]
    ensures Lower(s) == s
  {
  }

  /** Spaces are not letters: `lower()` keeps them. */
  lemma LowerOfSpaces(s: string)
    requires AllSpace(s)
    ensures Lower(s) == s
  {
    LowerFixed(s);
  }

  lemma LowerIdempotent(s: string)
    ensures Lower(Lower(s)) == Lower(s)
  {
  }
}
