/** Python's `str.replace`, `str.split` and `str.join` on strings, with the
    facts the remediation fixes rely on. */
module Text {
  import opened Values

  /** `s.replace(old, new)`: every non-overlapping occurrence of `old`, left
      to right; an empty `old` matches before every character and at the end. */
  function ReplaceAll(s: string, pattern: string, replacement: string): string
    decreases |s|
  {
    if pattern == [] then
      (if s == [] then replacement else replacement + [s[0]] + ReplaceAll(s[1..], pattern, replacement))
    else if |s| < |pattern| then s
    else if s[..|pattern|] == pattern then replacement + ReplaceAll(s[|pattern|..], pattern, replacement)
    else [s[0]] + ReplaceAll(s[1..], pattern, replacement)
  }

  /** `s.split(sep)`; Python rejects an empty separator. */
  function SplitOn(s: string, sep: string): (parts: seq<string>)
    requires sep != []
    ensures |parts| >= 1
    decreases |s|
  {
    if |s| < |sep| then [s]
    else if s[..|sep|] == sep then [""] + SplitOn(s[|sep|..], sep)
    else
      var r := SplitOn(s[1..], sep);
      [[s[0]] + r[0]] + r[1..]
  }

  lemma JoinWithCons(c: char, r: seq<string>, sep: string)
    requires |r| >= 1
    ensures JoinWith([[c] + r[0]] + r[1..], sep) == [c] + JoinWith(r, sep)
  {
    var parts := [[c] + r[0]] + r[1..];
    assert parts[1..] == r[1..];
    if |r| > 1 {
      assert JoinWith(parts, sep) == ([c] + r[0]) + sep + JoinWith(r[1..], sep);
      assert ([c] + r[0]) + sep + JoinWith(r[1..], sep) == [c] + (r[0] + sep + JoinWith(r[1..], sep));
    }
  }

  /** Replacing is splitting on `old` and joining with `new`. */
  lemma {:induction false} ReplaceIsSplitJoin(s: string, pattern: string, replacement: string)
    requires pattern != []
    ensures ReplaceAll(s, pattern, replacement) == JoinWith(SplitOn(s, pattern), replacement)
    decreases |s|
  {
    if |s| < |pattern| {
    } else if s[..|pattern|] == pattern {
      ReplaceIsSplitJoin(s[|pattern|..], pattern, replacement);
      var rest := SplitOn(s[|pattern|..], pattern);
      var parts := [""] + rest;
      assert parts[1..] == rest;
      assert JoinWith(parts, replacement) == "" + replacement + JoinWith(rest, replacement);
      assert "" + replacement + JoinWith(rest, replacement) == replacement + JoinWith(rest, replacement);
    } else {
      ReplaceIsSplitJoin(s[1..], pattern, replacement);
      JoinWithCons(s[0], SplitOn(s[1..], pattern), replacement);
    }
  }

  /** Replacing a pattern by itself changes nothing. */
  lemma {:induction false} ReplaceBySelf(s: string, pattern: string)
    requires pattern != []
    ensures ReplaceAll(s, pattern, pattern) == s
    decreases |s|
  {
    if |s| < |pattern| {
    } else if s[..|pattern|] == pattern {
      ReplaceBySelf(s[|pattern|..], pattern);
      assert s[..|pattern|] + s[|pattern|..] == s;
    } else {
      ReplaceBySelf(s[1..], pattern);
      assert [s[0]] + s[1..] == s;
    }
  }

  /** `sep.join(s.split(sep)) == s`. */
  lemma JoinSplit(s: string, sep: string)
    requires sep != []
    ensures JoinWith(SplitOn(s, sep), sep) == s
  {
    ReplaceIsSplitJoin(s, sep, sep);
    ReplaceBySelf(s, sep);
  }

  /** Splitting on one character leaves that character in no part. */
  lemma {:induction false} SplitPartsExcludeSeparator(s: string, c: char)
    ensures forall p <- SplitOn(s, [c]) :: c !in p
    decreases |s|
  {
    if |s| >= 1 {
      SplitPartsExcludeSeparator(s[1..], c);
      if s[..1] != [c] {
        assert s[0] != c;
        var r := SplitOn(s[1..], [c]);
        assert forall p <- r[1..] :: p in r;
      }
    }
  }

  /** A string without `old` is left untouched. */
  lemma {:induction false} ReplaceAbsent(s: string, pattern: string, replacement: string)
    requires pattern != [] && !IsSubstring(pattern, s)
    ensures ReplaceAll(s, pattern, replacement) == s
    decreases |s|
  {
    if |s| >= |pattern| {
      assert s[..|pattern|] != pattern;
      ReplaceAbsent(s[1..], pattern, replacement);
      assert [s[0]] + s[1..] == s;
    }
  }

  /** A pattern holding a character the string lacks does not occur in it. */
  lemma {:induction false} AbsentCharNotSubstring(sub: string, s: string, c: char)
    requires c in sub && c !in s
    ensures !IsSubstring(sub, s)
    decreases |s|
  {
    if |s| > 0 {
      assert forall x <- s[1..] :: x in s;
      AbsentCharNotSubstring(sub, s[1..], c);
    }
  }

  // ---- Occurrences ----

  /** An occurrence at a known position is an occurrence. */
  lemma {:induction false} SubstringAt(sub: string, s: string, i: int)
    requires 0 <= i && i + |sub| <= |s| && s[i..i + |sub|] == sub
    ensures IsSubstring(sub, s)
    decreases i
  {
    if i > 0 {
      assert s[1..][i - 1..i - 1 + |sub|] == s[i..i + |sub|];
      SubstringAt(sub, s[1..], i - 1);
    }
  }

  /** An occurrence sits at some position. */
  lemma {:induction false} SubstringIndex(sub: string, s: string) returns (i: int)
    requires IsSubstring(sub, s)
    ensures 0 <= i && i + |sub| <= |s| && s[i..i + |sub|] == sub
    decreases |s|
  {
    if IsPrefix(sub, s) {
      i := 0;
    } else {
      var j := SubstringIndex(sub, s[1..]);
      i := j + 1;
      assert s[1..][j..j + |sub|] == s[i..i + |sub|];
    }
  }

  /** An occurrence survives text added on either side. */
  lemma SubstringWithin(sub: string, a: string, s: string, b: string)
    requires IsSubstring(sub, s)
    ensures IsSubstring(sub, a + s + b)
  {
    var i := SubstringIndex(sub, s);
    assert (a + s + b)[|a| + i..|a| + i + |sub|] == s[i..i + |sub|];
    SubstringAt(sub, a + s + b, |a| + i);
  }

  /** An occurrence in one part is an occurrence in the joined text. */
  lemma {:induction false} SubstringOfJoin(sub: string, parts: seq<string>, sep: string, k: int)
    requires 0 <= k < |parts| && IsSubstring(sub, parts[k])
    ensures IsSubstring(sub, JoinWith(parts, sep))
    decreases |parts|
  {
    if |parts| > 1 {
      var rest := JoinWith(parts[1..], sep);
      if k == 0 {
        SubstringWithin(sub, "", parts[0], sep + rest);
        assert "" + parts[0] + (sep + rest) == parts[0] + sep + rest;
      } else {
        assert parts[1..][k - 1] == parts[k];
        SubstringOfJoin(sub, parts[1..], sep, k - 1);
        SubstringWithin(sub, parts[0] + sep, rest, "");
        assert parts[0] + sep + rest + "" == parts[0] + sep + rest;
      }
    }
  }

  /** The character at a position an occurrence covers belongs to it. */
  lemma CoveredCharOccurs(sub: string, s: string, i: int, n: int)
    requires 0 <= i <= n < i + |sub| <= |s| && s[i..i + |sub|] == sub
    ensures s[n] in sub
  {
    assert sub[n - i] == s[n];
  }

  /** An occurrence without the separator lies within one part. */
  lemma {:induction false} SubstringInSomePart(sub: string, parts: seq<string>, c: char) returns (k: int)
    requires |parts| >= 1 && c !in sub && forall p <- parts :: c !in p
    requires IsSubstring(sub, JoinWith(parts, [c]))
    ensures 0 <= k < |parts| && IsSubstring(sub, parts[k])
    decreases |parts|
  {
    if |parts| == 1 {
      k := 0;
    } else {
      var joined := JoinWith(parts, [c]);
      var rest := JoinWith(parts[1..], [c]);
      assert joined == parts[0] + [c] + rest;
      var i := SubstringIndex(sub, joined);
      var n := |parts[0]|;
      if i + |sub| <= n {
        assert parts[0][i..i + |sub|] == joined[i..i + |sub|];
        SubstringAt(sub, parts[0], i);
        k := 0;
      } else if i > n {
        assert rest[i - n - 1..i - n - 1 + |sub|] == joined[i..i + |sub|];
        SubstringAt(sub, rest, i - n - 1);
        assert forall p <- parts[1..] :: p in parts;
        var j := SubstringInSomePart(sub, parts[1..], c);
        assert parts[1..][j] == parts[j + 1];
        k := j + 1;
      } else {
        CoveredCharOccurs(sub, joined, i, n);
        assert false;
      }
    }
  }

  /** A text longer than the string does not occur in it. */
  lemma {:induction false} LongerNotSubstring(sub: string, s: string)
    requires |s| < |sub|
    ensures !IsSubstring(sub, s)
    decreases |s|
  {
    if |s| > 0 {
      LongerNotSubstring(sub, s[1..]);
    }
  }

  /** A text as long as the string but with another first character does
      not occur in it. */
  lemma SameLengthNotSubstring(sub: string, s: string)
    requires |s| == |sub| > 0 && s[0] != sub[0]
    ensures !IsSubstring(sub, s)
  {
    if IsSubstring(sub, s) {
      var i := SubstringIndex(sub, s);
    }
  }

  /** A text without the separator that occurs in no part does not occur in
      the joined text either. */
  lemma NotInAnyPart(sub: string, parts: seq<string>, c: char)
    requires |parts| >= 1 && c !in sub && forall p <- parts :: c !in p
    requires forall k :: 0 <= k < |parts| ==> !IsSubstring(sub, parts[k])
    ensures !IsSubstring(sub, JoinWith(parts, [c]))
  {
    if IsSubstring(sub, JoinWith(parts, [c])) {
      var k := SubstringInSomePart(sub, parts, c);
    }
  }

  /** Replacing a whole string by something else gives that something. */
  lemma ReplaceWhole(s: string, replacement: string)
    requires s != []
    ensures ReplaceAll(s, s, replacement) == replacement
  {
    assert s[..|s|] == s && s[|s|..] == [];
  }

  /** Two replacements in a row. */
  lemma SubstituteTwo(s: string, p0: string, r0: string, p1: string, r1: string)
    ensures Substitute(s, [(p0, r0), (p1, r1)]) == ReplaceAll(ReplaceAll(s, p0, r0), p1, r1)
  {
    var pairs := [(p0, r0), (p1, r1)];
    var once := ReplaceAll(s, p0, r0);
    assert pairs[1..] == [(p1, r1)] && pairs[1..][1..] == [];
    assert Substitute(s, pairs) == Substitute(once, [(p1, r1)]);
    assert Substitute(once, [(p1, r1)]) == Substitute(ReplaceAll(once, p1, r1), []);
  }

  /** A text without the separator that occurs on neither side of it does
      not occur in the two sides joined by it. */
  lemma NotAcrossSeparator(sub: string, before: string, after: string, c: char)
    requires c !in sub && c !in before && c !in after
    requires !IsSubstring(sub, before) && !IsSubstring(sub, after)
    ensures !IsSubstring(sub, JoinWith([before, after], [c]))
  {
    NotInAnyPart(sub, [before, after], c);
  }

  /** The replacements of a fix, applied in order, each to the result of
      the one before. */
  function Substitute(s: string, pairs: seq<(string, string)>): string
    decreases |pairs|
  {
    if pairs == [] then s else Substitute(ReplaceAll(s, pairs[0].0, pairs[0].1), pairs[1..])
  }

  /** `for old, new in fixes: content = content.replace(old, new)`. */
  method ApplyPairs(content: string, pairs: seq<(string, string)>) returns (r: string)
    ensures r == Substitute(content, pairs)
  {
    r := content;
    var i := 0;
    assert pairs[0..] == pairs;
    while i < |pairs|
      invariant 0 <= i <= |pairs|
      invariant Substitute(content, pairs) == Substitute(r, pairs[i..])
    {
      assert pairs[i..][1..] == pairs[i + 1..];
      var (pattern, replacement) := pairs[i];
      r := ReplaceAll(r, pattern, replacement);
      i := i + 1;
    }
  }

  /** Content holding none of the patterns comes back identical. */
  lemma {:induction false} SubstituteAbsent(s: string, pairs: seq<(string, string)>)
    requires forall k :: 0 <= k < |pairs| ==> pairs[k].0 != [] && !IsSubstring(pairs[k].0, s)
    ensures Substitute(s, pairs) == s
    decreases |pairs|
  {
    if pairs != [] {
      ReplaceAbsent(s, pairs[0].0, pairs[0].1);
      assert forall k :: 0 <= k < |pairs[1..]| ==> pairs[1..][k] == pairs[k + 1];
      SubstituteAbsent(s, pairs[1..]);
    }
  }
}
