/** The Python string operations the core relies on: `startswith`, `in`, `lower` and `replace`. */
module Strings {

  /** `s.startswith(p)` */
  predicate IsPrefix(p: string, s: string)
  {
    |p| <= |s| && s[..|p|] == p
  }

  /** `s.endswith(p)` */
  predicate IsSuffix(p: string, s: string)
  {
    |p| <= |s| && s[|s| - |p|..] == p
  }

  /** `pat` occurs in `s` starting at index `i`. */
  predicate OccursAt(s: string, pat: string, i: nat)
  {
    i + |pat| <= |s| && s[i..i + |pat|] == pat
  }

  /** `pat in s` */
  predicate Contains(s: string, pat: string)
  {
    exists i: nat | i <= |s| :: OccursAt(s, pat, i)
  }

  /** `c.lower()` for ASCII letters; every other character is left alone. */
  function LowerChar(c: char): (d: char)
    ensures 'A' <= c <= 'Z' ==> d != c && 'a' <= d <= 'z'
    ensures !('A' <= c <= 'Z') ==> d == c
  {
    if 'A' <= c <= 'Z' then (c as int - 'A' as int + 'a' as int) as char else c
  }

  /** `s.lower()`, restricted to ASCII case mapping. */
  function Lower(s: string): (t: string)
    ensures |t| == |s|
    ensures forall k :: 0 <= k < |s| ==> t[k] == LowerChar(s[k])
  {
    seq(|s|, k requires 0 <= k < |s| => LowerChar(s[k]))
  }

  /** No upper-case ASCII letter in `s`, so lowering leaves it alone. */
  predicate IsLowerCase(s: string)
  {
    forall k :: 0 <= k < |s| ==> !('A' <= s[k] <= 'Z')
  }

  /** `s.replace(pat, rep)` for a non-empty `pat`: occurrences are found left to right and do not overlap. */
  function Replace(s: string, pat: string, rep: string): string
    requires |pat| > 0
    decreases |s|
  {
    if IsPrefix(pat, s) then rep + Replace(s[|pat|..], pat, rep)
    else if s == [] then []
    else [s[0]] + Replace(s[1..], pat, rep)
  }

  /** A lower-case pattern found in `s` is still found in `s.lower()`: case-insensitive search
      succeeds whenever plain search does. */
  lemma LowerKeepsLowerCaseMatch(s: string, pat: string)
    requires IsLowerCase(pat) && Contains(s, pat)
    ensures Contains(Lower(s), pat)
  {
    var i: nat :| i <= |s| && OccursAt(s, pat, i);
    var t := Lower(s);
    forall k | 0 <= k < |pat| ensures t[i + k] == pat[k] {
      assert s[i + k] == s[i..i + |pat|][k] == pat[k];
    }
    assert t[i..i + |pat|] == pat;
    assert OccursAt(t, pat, i);
  }

  /** Character `x` of an occurrence of `pat` at `i` is `pat[x]`. */
  lemma OccursChar(s: string, pat: string, i: nat, x: nat)
    ensures OccursAt(s, pat, i) && x < |pat| ==> s[i + x] == pat[x]
  {
    if OccursAt(s, pat, i) && x < |pat| {
      assert s[i..i + |pat|][x] == s[i + x];
    }
  }

  /** `pat` occurs in `s` at index `i` once that part of `s` is lowered. */
  predicate OccursAtIgnoringCase(s: string, pat: string, i: nat)
  {
    i + |pat| <= |s| && Lower(s[i..i + |pat|]) == pat
  }

  /** Lowering commutes with taking a slice. */
  lemma LowerSlice(s: string, i: nat, j: nat)
    requires i <= j <= |s|
    ensures Lower(s)[i..j] == Lower(s[i..j])
  {
    assert forall k :: 0 <= k < j - i ==> Lower(s)[i..j][k] == LowerChar(s[i + k]) == Lower(s[i..j])[k];
  }

  /** Replacing a pattern that does not occur changes nothing. */
  lemma {:induction false} ReplaceAbsent(s: string, pat: string, rep: string)
    requires |pat| > 0 && !Contains(s, pat)
    ensures Replace(s, pat, rep) == s
    decreases |s|
  {
    assert !OccursAt(s, pat, 0);
    if s != [] {
      forall j: nat | j <= |s[1..]| ensures !OccursAt(s[1..], pat, j) {
        OccursShift(s, pat, j);
      }
      ReplaceAbsent(s[1..], pat, rep);
    }
  }

  /** An occurrence in the tail of `s` at `j` is an occurrence in `s` at `j + 1`, and back. */
  lemma OccursShift(s: string, pat: string, j: nat)
    requires s != []
    ensures OccursAt(s[1..], pat, j) <==> OccursAt(s, pat, j + 1)
  {
    if j + 1 + |pat| <= |s| {
      assert s[1..][j..j + |pat|] == s[j + 1..j + 1 + |pat|];
    }
  }

  /** The leftmost occurrence is the one replaced, and scanning resumes right after it: every
      occurrence met by the left-to-right scan becomes `rep`, and the text before it is kept. */
  lemma ReplaceFirst(s: string, pat: string, rep: string, i: nat)
    requires |pat| > 0 && OccursAt(s, pat, i)
    requires forall j: nat :: j < i ==> !OccursAt(s, pat, j)
    ensures Replace(s, pat, rep) == s[..i] + rep + Replace(s[i + |pat|..], pat, rep)
  {
    ReplaceKeepsPrefix(s, pat, rep, i);
    var u := s[i..];
    assert u[..|pat|] == s[i..i + |pat|];
    assert IsPrefix(pat, u);
    assert u[|pat|..] == s[i + |pat|..];
    assert Replace(u, pat, rep) == rep + Replace(s[i + |pat|..], pat, rep);
  }

  /** Where the pattern does not start `s`, the first character is kept and the scan moves on. */
  lemma ReplaceSkip(s: string, pat: string, rep: string)
    requires |pat| > 0 && s != [] && !OccursAt(s, pat, 0)
    ensures Replace(s, pat, rep) == [s[0]] + Replace(s[1..], pat, rep)
  {
    assert !IsPrefix(pat, s);
  }

  /** An occurrence at `j` in `s[m..]` is an occurrence at `j + m` in `s`, and back. */
  lemma OccursShiftBy(s: string, pat: string, m: nat, j: nat)
    requires m <= |s|
    ensures OccursAt(s[m..], pat, j) <==> OccursAt(s, pat, j + m)
  {
    if j + m + |pat| <= |s| {
      assert s[m..][j..j + |pat|] == s[j + m..j + m + |pat|];
    }
  }

  /** Where the pattern starts nowhere in the first `n` characters, they are kept as they are. */
  lemma {:induction false} ReplaceKeepsPrefix(s: string, pat: string, rep: string, n: nat)
    requires |pat| > 0 && n <= |s|
    requires forall j: nat :: j < n ==> !OccursAt(s, pat, j)
    ensures Replace(s, pat, rep) == s[..n] + Replace(s[n..], pat, rep)
    decreases n
  {
    if n == 0 {
      assert s[..0] == [] && s[0..] == s;
    } else {
      ReplaceSkip(s, pat, rep);
      forall j: nat | j < n - 1 ensures !OccursAt(s[1..], pat, j) {
        OccursShift(s, pat, j);
      }
      ReplaceKeepsPrefix(s[1..], pat, rep, n - 1);
      assert s[1..][n - 1..] == s[n..];
      ConsPrefix(s, n, Replace(s, pat, rep), Replace(s[1..], pat, rep), Replace(s[n..], pat, rep));
    }
  }

  lemma ConsPrefix(s: string, n: nat, a: string, b: string, c: string)
    requires 0 < n <= |s| && a == [s[0]] + b && b == s[1..][..n - 1] + c
    ensures a == s[..n] + c
  {
    assert [s[0]] + s[1..][..n - 1] == s[..n];
  }

  /** An occurrence of `q` that no occurrence of `pat` overlaps survives `s.replace(pat, rep)`. */
  lemma {:induction false} ReplaceKeeps(s: string, pat: string, rep: string, q: string, i: nat)
    requires |pat| > 0 && |q| > 0 && OccursAt(s, q, i)
    requires forall j: nat :: j < i + |q| && i < j + |pat| ==> !OccursAt(s, pat, j)
    ensures Contains(Replace(s, pat, rep), q)
    decreases |s|
  {
    if IsPrefix(pat, s) {
      assert OccursAt(s, pat, 0);
      var t := s[|pat|..];
      OccursShiftBy(s, q, |pat|, i - |pat|);
      forall j: nat | j < i - |pat| + |q| && i - |pat| < j + |pat| ensures !OccursAt(t, pat, j) {
        OccursShiftBy(s, pat, |pat|, j);
      }
      ReplaceKeeps(t, pat, rep, q, i - |pat|);
      var m: nat :| m <= |Replace(t, pat, rep)| && OccursAt(Replace(t, pat, rep), q, m);
      PrependKeeps(rep, Replace(t, pat, rep), q, m);
    } else if i > 0 {
      ReplaceSkip(s, pat, rep);
      OccursShift(s, q, i - 1);
      forall j: nat | j < i - 1 + |q| && i - 1 < j + |pat| ensures !OccursAt(s[1..], pat, j) {
        OccursShift(s, pat, j);
      }
      ReplaceKeeps(s[1..], pat, rep, q, i - 1);
      var m: nat :| m <= |Replace(s[1..], pat, rep)| && OccursAt(Replace(s[1..], pat, rep), q, m);
      PrependKeeps([s[0]], Replace(s[1..], pat, rep), q, m);
    } else {
      ReplaceKeepsPrefix(s, pat, rep, |q|);
      assert s[..|q|] == q;
      assert (s[..|q|] + Replace(s[|q|..], pat, rep))[0..|q|] == q;
      assert OccursAt(Replace(s, pat, rep), q, 0);
    }
  }

  lemma PrependKeeps(p: string, t: string, q: string, m: nat)
    requires OccursAt(t, q, m)
    ensures Contains(p + t, q)
  {
    assert (p + t)[|p| + m..|p| + m + |q|] == t[m..m + |q|];
    assert OccursAt(p + t, q, |p| + m);
  }

  /** A text that is exactly the pattern is replaced as a whole. */
  lemma ReplaceWhole(pat: string, rep: string)
    requires |pat| > 0
    ensures Replace(pat, pat, rep) == rep
  {
    assert IsPrefix(pat, pat);
    assert pat[|pat|..] == [];
    assert rep + [] == rep;
  }

  /** Replacing a pattern by itself is the identity. */
  lemma {:induction false} ReplaceBySelf(s: string, pat: string)
    requires |pat| > 0
    ensures Replace(s, pat, pat) == s
    decreases |s|
  {
    if IsPrefix(pat, s) {
      ReplaceBySelf(s[|pat|..], pat);
      assert s == s[..|pat|] + s[|pat|..];
    } else if s != [] {
      ReplaceBySelf(s[1..], pat);
      assert s == [s[0]] + s[1..];
    }
  }
}
