/** The few Python `str` operations the server relies on, over `seq<char>`:
    `strip`, `upper`, `startswith` and `replace`. Whitespace and case are the
    ASCII parts of Python's definitions. */
module PyStr {

  /** Python's `str.isspace` on ASCII: tab, line feed, vertical tab, form feed,
      carriage return, the four information separators U+001C..U+001F, and space. */
  predicate IsSpace(c: char) {
    c == ' ' || ('\t' <= c <= '\r') || ('\U{1C}' <= c <= '\U{1F}')
  }

  predicate AllSpace(s: string) {
    forall i :: 0 <= i < |s| ==> IsSpace(s[i])
  }

  /** No whitespace at either end: what `strip` leaves behind. */
  predicate Trimmed(s: string) {
    s == [] || (!IsSpace(s[0]) && !IsSpace(s[|s| - 1]))
  }

  /** `s.lstrip()`: the suffix of `s` that starts at its first non-whitespace character. */
  function StripStart(s: string): (r: string)
    ensures |r| <= |s| && r == s[|s| - |r|..]
    ensures forall i :: 0 <= i < |s| - |r| ==> IsSpace(s[i])
    ensures r == [] || !IsSpace(r[0])
  {
    if |s| > 0 && IsSpace(s[0]) then StripStart(s[1..]) else s
  }

  /** `s.rstrip()`: the prefix of `s` that ends at its last non-whitespace character. */
  function StripEnd(s: string): (r: string)
    ensures |r| <= |s| && r == s[..|r|]
    ensures forall i :: |r| <= i < |s| ==> IsSpace(s[i])
    ensures r == [] || !IsSpace(r[|r| - 1])
  {
    if |s| > 0 && IsSpace(s[|s| - 1]) then StripEnd(s[..|s| - 1]) else s
  }

  /** `s.strip()`: `s` with its surrounding whitespace removed. */
  function Strip(s: string): (r: string)
    ensures Trimmed(r)
    ensures |r| <= |s|
  {
    StripEnd(StripStart(s))
  }

  /** `strip` returns the empty string exactly for text that is all whitespace. */
  lemma StripEmptyIffAllSpace(s: string)
    ensures Strip(s) == [] <==> AllSpace(s)
  {
    var t := StripStart(s);
    if AllSpace(s) {
      assert s == s + [];
      StripStartOf(s, []);
    }
    if Strip(s) == [] {
      assert t == [];
    }
  }

  /** What `strip` removed is whitespace on both sides of what it kept. */
  lemma StripSurroundings(s: string)
    ensures exists a, b :: AllSpace(a) && AllSpace(b) && s == a + Strip(s) + b
  {
    var t := StripStart(s);
    var r := StripEnd(t);
    var a, b := s[..|s| - |t|], t[|r|..];
    Reassemble(s, t, r);
    forall i | 0 <= i < |a|
      ensures IsSpace(a[i])
    {
      assert a[i] == s[i];
    }
    forall i | 0 <= i < |b|
      ensures IsSpace(b[i])
    {
      assert b[i] == t[|r| + i];
    }
    assert AllSpace(a) && AllSpace(b) && s == a + Strip(s) + b;
  }

  /** A string is its stripped prefix, its core and its stripped suffix, in order. */
  lemma Reassemble(s: string, t: string, r: string)
    requires |t| <= |s| && t == s[|s| - |t|..]
    requires |r| <= |t| && r == t[..|r|]
    ensures s == s[..|s| - |t|] + r + t[|r|..]
  {
    assert s == s[..|s| - |t|] + s[|s| - |t|..];
    assert t == r + t[|r|..];
  }

  /** Leading whitespace in front of a string that starts with a non-space is what `lstrip` removes. */
  lemma {:induction false} StripStartOf(a: string, u: string)
    requires AllSpace(a) && (u == [] || !IsSpace(u[0]))
    ensures StripStart(a + u) == u
    decreases |a|
  {
    if a == [] {
      assert a + u == u;
    } else {
      assert (a + u)[1..] == a[1..] + u;
      StripStartOf(a[1..], u);
    }
  }

  /** Trailing whitespace after a string that ends with a non-space is what `rstrip` removes. */
  lemma {:induction false} StripEndOf(u: string, b: string)
    requires AllSpace(b) && (u == [] || !IsSpace(u[|u| - 1]))
    ensures StripEnd(u + b) == u
    decreases |b|
  {
    if b == [] {
      assert u + b == u;
    } else {
      var b' := b[..|b| - 1];
      assert (u + b)[..|u + b| - 1] == u + b';
      StripEndOf(u, b');
    }
  }

  /** The whitespace around a trimmed core is exactly what `strip` removes. */
  lemma StripExact(a: string, m: string, b: string)
    requires AllSpace(a) && AllSpace(b) && Trimmed(m)
    ensures Strip(a + m + b) == m
  {
    if m == [] {
      assert a + m + b == (a + b) + [];
      StripStartOf(a + b, []);
    } else {
      assert a + m + b == a + (m + b);
      StripStartOf(a, m + b);
      StripEndOf(m, b);
    }
  }

  /** Stripping twice is stripping once. */
  lemma StripIdempotent(s: string)
    ensures Strip(Strip(s)) == Strip(s)
  {
    var m := Strip(s);
    assert m == [] + m + [];
    StripExact([], m, []);
  }

  lemma AllSpaceConcat(x: string, y: string)
    requires AllSpace(x) && AllSpace(y)
    ensures AllSpace(x + y)
  {
  }

  lemma StripPadded(a: string, a': string, m: string, b': string, b: string)
    requires AllSpace(a) && AllSpace(a') && AllSpace(b') && AllSpace(b) && Trimmed(m)
    ensures Strip(a + (a' + m + b') + b) == m
  {
    AllSpaceConcat(a, a');
    AllSpaceConcat(b', b);
    assert a + (a' + m + b') + b == (a + a') + m + (b' + b);
    StripExact(a + a', m, b' + b);
  }

  /** Extra whitespace around a string does not change what `strip` returns. */
  lemma StripIgnoresPadding(a: string, s: string, b: string)
    requires AllSpace(a) && AllSpace(b)
    ensures Strip(a + s + b) == Strip(s)
  {
    StripSurroundings(s);
    var a', b' :| AllSpace(a') && AllSpace(b') && s == a' + Strip(s) + b';
    StripPadded(a, a', Strip(s), b', b);
  }

  /** Python's `str.upper` on one ASCII character; every other character is left alone. */
  function UpperChar(c: char): (u: char)
    ensures 'a' <= c <= 'z' ==> 'A' <= u <= 'Z' && u as int == c as int - 32
    ensures !('a' <= c <= 'z') ==> u == c
  {
    if 'a' <= c <= 'z' then (c as int - 32) as char else c
  }

  /** Upper-casing neither creates nor removes whitespace. */
  lemma UpperCharKeepsSpace(c: char)
    ensures IsSpace(UpperChar(c)) <==> IsSpace(c)
  {
  }

  /** `s.upper()`, character by character. */
  function Upper(s: string): (r: string)
    ensures |r| == |s|
    ensures forall i :: 0 <= i < |s| ==> r[i] == UpperChar(s[i])
  {
    if s == [] then [] else [UpperChar(s[0])] + Upper(s[1..])
  }

  /** Two strings that differ only in letter case. */
  predicate SameIgnoringCase(a: string, b: string) {
    |a| == |b| && forall i :: 0 <= i < |a| ==> UpperChar(a[i]) == UpperChar(b[i])
  }

  /** `s.startswith(p)`. */
  predicate StartsWith(s: string, p: string) {
    |p| <= |s| && s[..|p|] == p
  }

  /** `p in s`: `p` occurs somewhere in `s`. */
  predicate Contains(s: string, p: string) {
    StartsWith(s, p) || (|s| > 0 && Contains(s[1..], p))
  }

  /** `s.replace(pat, rep)`: every non-overlapping occurrence of `pat`, scanning
      left to right, is replaced by `rep`. An empty `pat` matches before every
      character and at the end, as in Python. */
  function Replace(s: string, pat: string, rep: string): (r: string)
    ensures |pat| > 0 && |rep| <= |pat| ==> |r| <= |s|
    ensures |pat| > 0 && |rep| >= |pat| ==> |r| >= |s|
    ensures |pat| > 0 && s == [] ==> r == []
    decreases |s|
  {
    if |pat| == 0 then
      if s == [] then rep else rep + [s[0]] + Replace(s[1..], pat, rep)
    else if StartsWith(s, pat) then rep + Replace(s[|pat|..], pat, rep)
    else if s == [] then []
    else [s[0]] + Replace(s[1..], pat, rep)
  }

  /** Text without an occurrence of the pattern comes back unchanged. */
  lemma {:induction false} ReplaceAbsent(s: string, pat: string, rep: string)
    requires !Contains(s, pat)
    ensures Replace(s, pat, rep) == s
    decreases |s|
  {
    if s != [] {
      ReplaceAbsent(s[1..], pat, rep);
    }
  }

  /** An occurrence at the very start is replaced, and the scan resumes after it. */
  lemma ReplaceLeading(pat: string, rest: string, rep: string)
    requires |pat| > 0
    ensures Replace(pat + rest, pat, rep) == rep + Replace(rest, pat, rep)
  {
    assert StartsWith(pat + rest, pat);
    assert (pat + rest)[|pat|..] == rest;
  }

  /** From position `k` of `y`, the text of `y` already disagrees with `p`:
      no occurrence of `p` can start at `k`, whatever follows `y`. */
  predicate MismatchFrom(y: string, p: string, k: int)
    requires 0 <= k <= |y|
  {
    exists j :: k <= j < |y| && j - k < |p| && y[j] != p[j - k]
  }

  /** No occurrence of `p` can start inside `y`, whatever follows `y`. */
  predicate Blocks(y: string, p: string) {
    forall k :: 0 <= k < |y| ==> MismatchFrom(y, p, k)
  }

  lemma BlocksTail(y: string, p: string)
    requires |y| > 0 && Blocks(y, p)
    ensures Blocks(y[1..], p)
  {
    forall k | 0 <= k < |y| - 1
      ensures MismatchFrom(y[1..], p, k)
    {
      assert MismatchFrom(y, p, k + 1);
      var j :| k + 1 <= j < |y| && j - (k + 1) < |p| && y[j] != p[j - (k + 1)];
      assert y[1..][j - 1] == y[j];
    }
  }

  /** A string that does not contain the first character of `p` blocks `p`. */
  lemma BlocksWithoutHead(y: string, p: string)
    requires |p| > 0 && p[0] !in y
    ensures Blocks(y, p)
  {
    forall k | 0 <= k < |y|
      ensures MismatchFrom(y, p, k)
    {
      assert y[k] != p[k - k];
    }
  }

  /** Blocking is preserved by concatenation. */
  lemma BlocksConcat(u: string, v: string, p: string)
    requires Blocks(u, p) && Blocks(v, p)
    ensures Blocks(u + v, p)
  {
    var y := u + v;
    forall k | 0 <= k < |y|
      ensures MismatchFrom(y, p, k)
    {
      if k < |u| {
        assert MismatchFrom(u, p, k);
        var j :| k <= j < |u| && j - k < |p| && u[j] != p[j - k];
        assert y[j] == u[j];
      } else {
        assert MismatchFrom(v, p, k - |u|);
        var j :| k - |u| <= j < |v| && j - (k - |u|) < |p| && v[j] != p[j - (k - |u|)];
        assert y[j + |u|] == v[j];
      }
    }
  }

  /** A blocking prefix cannot contribute an occurrence. */
  lemma {:induction false} BlocksPrefix(y: string, r: string, p: string)
    requires |p| > 0 && Blocks(y, p) && !Contains(r, p)
    ensures !Contains(y + r, p)
    decreases |y|
  {
    if y == [] {
      assert y + r == r;
    } else {
      assert MismatchFrom(y, p, 0);
      var j :| 0 <= j < |y| && j < |p| && y[j] != p[j];
      if |p| <= |y + r| {
        assert (y + r)[..|p|][j] == y[j];
      }
      BlocksTail(y, p);
      BlocksPrefix(y[1..], r, p);
      assert (y + r)[1..] == y[1..] + r;
    }
  }

  /** A string that starts with `x` cannot also start with a `p` that `x` blocks. */
  lemma NotBothPrefixes(out: string, x: string, p: string)
    requires |x| > 0 && Blocks(x, p) && StartsWith(out, x)
    ensures !StartsWith(out, p)
  {
    assert MismatchFrom(x, p, 0);
    var j :| 0 <= j < |x| && j < |p| && x[j] != p[j];
    assert out[..|x|][j] == out[j];
    if |p| <= |out| {
      assert out[..|p|][j] == out[j];
    }
  }

  /** If the replaced text starts with `x`, and `x` blocks the replacement, then the
      original text already started with `x`: no part of `x` came from `rep`. */
  lemma {:induction false} ReplacedPrefix(t: string, x: string, pat: string, rep: string)
    requires |pat| > 0 && Blocks(x, rep)
    requires StartsWith(Replace(t, pat, rep), x)
    ensures StartsWith(t, x)
    decreases |t|
  {
    var out := Replace(t, pat, rep);
    if x == [] {
    } else if StartsWith(t, pat) {
      assert out == rep + Replace(t[|pat|..], pat, rep);
      NotBothPrefixes(out, x, rep);
      assert false;
    } else if t == [] {
    } else {
      assert out == [t[0]] + Replace(t[1..], pat, rep);
      assert out[..|x|][0] == t[0];
      assert Replace(t[1..], pat, rep)[..|x| - 1] == out[..|x|][1..];
      BlocksTail(x, rep);
      ReplacedPrefix(t[1..], x[1..], pat, rep);
      assert t[..|x|] == [t[0]] + t[1..][..|x| - 1];
    }
  }

  /** `replace` leaves no occurrence of the pattern behind, provided the replacement
      cannot be part of a new occurrence: no occurrence starts inside `rep`, and the
      tail of `pat` cannot overlap the beginning of `rep`. */
  lemma {:induction false} ReplaceRemovesAll(s: string, pat: string, rep: string)
    requires |pat| > 0 && Blocks(rep, pat) && Blocks(pat[1..], rep)
    ensures !Contains(Replace(s, pat, rep), pat)
    decreases |s|
  {
    if StartsWith(s, pat) {
      ReplaceRemovesAll(s[|pat|..], pat, rep);
      BlocksPrefix(rep, Replace(s[|pat|..], pat, rep), pat);
    } else if s == [] {
    } else {
      var rest := Replace(s[1..], pat, rep);
      ReplaceRemovesAll(s[1..], pat, rep);
      var out := [s[0]] + rest;
      if StartsWith(out, pat) {
        assert out[0] == pat[0];
        assert rest[..|pat| - 1] == out[..|pat|][1..] == pat[1..];
        ReplacedPrefix(s[1..], pat[1..], pat, rep);
        assert false;
      }
      assert out[1..] == rest;
    }
  }
}
