/** The read-only guard of `execute_query` (main.py:219-220): the query is
    stripped and upper-cased for comparison only, and accepted when that copy
    starts with `SELECT`, `WITH` or `SHOW`. It is a raw prefix test on
    characters, not on tokens, so `SELECTED` and `WITHDRAW` pass it too. */
module Validator {
  import opened PyStr

  /** The accepted leading keywords, in the order the source tries them. */
  const Keywords: seq<string> := ["SELECT", "WITH", "SHOW"]

  /** `query.strip().upper()`: the copy the guard compares; the query itself is not changed. */
  function Normalize(query: string): (n: string)
    ensures |n| <= |query| && Trimmed(n)
    ensures forall i :: 0 <= i < |n| ==> !('a' <= n[i] <= 'z')
    ensures SameIgnoringCase(n, Strip(query))
  {
    var s := Strip(query);
    if s == [] then Upper(s)
    else
      UpperCharKeepsSpace(s[0]);
      UpperCharKeepsSpace(s[|s| - 1]);
      Upper(s)
  }

  /** The guard: `any(query_upper.startswith(p) for p in ("SELECT", "WITH", "SHOW"))`. */
  predicate IsReadOnly(query: string)
    ensures IsReadOnly(query) ==> |Normalize(query)| >= 4
    ensures IsReadOnly(query) ==> Normalize(query)[0] == 'S' || Normalize(query)[0] == 'W'
  {
    var n := Normalize(query);
    KeywordPrefixShape(n, 0);
    KeywordPrefixShape(n, 1);
    KeywordPrefixShape(n, 2);
    StartsWith(n, Keywords[0]) || StartsWith(n, Keywords[1]) || StartsWith(n, Keywords[2])
  }

  /** The guard accepts exactly when some keyword is a prefix of the normalised query. */
  lemma ReadOnlyByKeyword(query: string)
    ensures IsReadOnly(query) <==> exists k :: 0 <= k < |Keywords| && StartsWith(Normalize(query), Keywords[k])
  {
    var n := Normalize(query);
    if exists k :: 0 <= k < |Keywords| && StartsWith(n, Keywords[k]) {
      var k :| 0 <= k < |Keywords| && StartsWith(n, Keywords[k]);
      assert k == 0 || k == 1 || k == 2;
    }
    if StartsWith(n, Keywords[0]) {
      assert 0 < |Keywords|;
    } else if StartsWith(n, Keywords[1]) {
      assert 1 < |Keywords|;
    } else if StartsWith(n, Keywords[2]) {
      assert 2 < |Keywords|;
    }
  }

  /** Keyword `kw` occurs at position `i` of `q` when letter case is ignored. */
  predicate KeywordAt(q: string, i: int, kw: string) {
    0 <= i && i + |kw| <= |q| && forall j :: 0 <= j < |kw| ==> UpperChar(q[i + j]) == kw[j]
  }

  /** A reading of the guard on the raw query, with no stripping or copying:
      nothing but whitespace, then a keyword in any letter case. */
  ghost predicate LeadsWithKeyword(q: string) {
    exists i, k :: 0 <= i <= |q| && 0 <= k < |Keywords| && AllSpace(q[..i]) && KeywordAt(q, i, Keywords[k])
  }

  /** Every keyword is non-empty and neither starts nor ends with whitespace. */
  lemma KeywordEnds(k: int)
    requires 0 <= k < |Keywords|
    ensures |Keywords[k]| > 0
    ensures !IsSpace(Keywords[k][0]) && !IsSpace(Keywords[k][|Keywords[k]| - 1])
  {
    if k == 0 {
      assert Keywords[k] == "SELECT";
    } else if k == 1 {
      assert Keywords[k] == "WITH";
    } else {
      assert Keywords[k] == "SHOW";
    }
  }

  /** A character that upper-cases to a non-space character is not whitespace. */
  lemma NotSpaceByUpper(c: char, d: char)
    requires UpperChar(c) == d && !IsSpace(d)
    ensures !IsSpace(c)
  {
    UpperCharKeepsSpace(c);
  }

  /** The guard accepts exactly the queries that, after leading whitespace, begin
      with a keyword in any letter case. */
  lemma ReadOnlyIffLeadingKeyword(q: string)
    ensures IsReadOnly(q) <==> LeadsWithKeyword(q)
  {
    ReadOnlyByKeyword(q);
    if IsReadOnly(q) {
      var k :| 0 <= k < |Keywords| && StartsWith(Normalize(q), Keywords[k]);
      AcceptedLeads(q, k);
    }
    if LeadsWithKeyword(q) {
      var i, k :| 0 <= i <= |q| && 0 <= k < |Keywords| && AllSpace(q[..i]) && KeywordAt(q, i, Keywords[k]);
      LeadsAccepted(q, i, k);
    }
  }

  lemma AcceptedLeads(q: string, k: int)
    requires 0 <= k < |Keywords| && StartsWith(Normalize(q), Keywords[k])
    ensures LeadsWithKeyword(q)
  {
    var kw := Keywords[k];
    var t := StripStart(q);
    var n := StripEnd(t);
    var i := |q| - |t|;
    assert Strip(q) == n;
    forall j | 0 <= j < |kw|
      ensures UpperChar(q[i + j]) == kw[j]
    {
      assert Normalize(q)[..|kw|][j] == Normalize(q)[j] == UpperChar(n[j]);
      assert n[j] == t[j] == q[i + j];
    }
    assert KeywordAt(q, i, kw);
    assert AllSpace(q[..i]);
  }

  /** `rstrip` keeps every character up to a non-space one. */
  lemma StripEndKeeps(t: string, n: int)
    requires 0 < n <= |t| && !IsSpace(t[n - 1])
    ensures |StripEnd(t)| >= n && forall j :: 0 <= j < n ==> StripEnd(t)[j] == t[j]
  {
    var r := StripEnd(t);
    assert |r| >= n;
  }

  /** `strip` keeps a stretch that follows only whitespace and starts and ends with non-space characters. */
  lemma StripKeeps(q: string, i: int, n: int)
    requires 0 <= i && 0 < n && i + n <= |q| && AllSpace(q[..i])
    requires !IsSpace(q[i]) && !IsSpace(q[i + n - 1])
    ensures |Strip(q)| >= n && forall j :: 0 <= j < n ==> Strip(q)[j] == q[i + j]
  {
    var t := q[i..];
    StripStartAfterSpace(q, i);
    assert Strip(q) == StripEnd(t);
    assert t[n - 1] == q[i + n - 1];
    StripEndKeeps(t, n);
    forall j | 0 <= j < n
      ensures Strip(q)[j] == q[i + j]
    {
      assert StripEnd(t)[j] == t[j];
    }
  }

  /** `lstrip` removes exactly the whitespace in front of the first non-space character. */
  lemma StripStartAfterSpace(q: string, i: int)
    requires 0 <= i < |q| && AllSpace(q[..i]) && !IsSpace(q[i])
    ensures StripStart(q) == q[i..]
  {
    assert q == q[..i] + q[i..];
    StripStartOf(q[..i], q[i..]);
  }

  /** The first and last characters of a keyword occurrence are not whitespace. */
  lemma KeywordAtEnds(q: string, i: int, k: int)
    requires 0 <= k < |Keywords| && KeywordAt(q, i, Keywords[k])
    ensures |Keywords[k]| > 0 && !IsSpace(q[i]) && !IsSpace(q[i + |Keywords[k]| - 1])
  {
    var kw := Keywords[k];
    KeywordEnds(k);
    NotSpaceByUpper(q[i], kw[0]);
    NotSpaceByUpper(q[i + |kw| - 1], kw[|kw| - 1]);
  }

  /** If the stripped query begins with the keyword's stretch, so does its upper-cased copy. */
  lemma NormalizedStartsWith(q: string, i: int, kw: string)
    requires KeywordAt(q, i, kw)
    requires |Strip(q)| >= |kw| && forall j :: 0 <= j < |kw| ==> Strip(q)[j] == q[i + j]
    ensures StartsWith(Normalize(q), kw)
  {
    assert Normalize(q)[..|kw|] == kw;
  }

  lemma LeadsAccepted(q: string, i: int, k: int)
    requires 0 <= i <= |q| && 0 <= k < |Keywords| && AllSpace(q[..i]) && KeywordAt(q, i, Keywords[k])
    ensures IsReadOnly(q)
  {
    KeywordAtEnds(q, i, k);
    StripKeeps(q, i, |Keywords[k]|);
    NormalizedStartsWith(q, i, Keywords[k]);
  }

  /** If `a` passes the reference reading, so does any `b` that differs only in letter case. */
  lemma LeadsIgnoresCase(a: string, b: string)
    requires SameIgnoringCase(a, b) && LeadsWithKeyword(a)
    ensures LeadsWithKeyword(b)
  {
    var i, k :| 0 <= i <= |a| && 0 <= k < |Keywords| && AllSpace(a[..i]) && KeywordAt(a, i, Keywords[k]);
    forall j | 0 <= j < i
      ensures IsSpace(b[..i][j])
    {
      assert IsSpace(a[..i][j]);
      UpperCharKeepsSpace(a[j]);
      UpperCharKeepsSpace(b[j]);
    }
    assert AllSpace(b[..i]);
    forall j | 0 <= j < |Keywords[k]|
      ensures UpperChar(b[i + j]) == Keywords[k][j]
    {
      assert UpperChar(a[i + j]) == Keywords[k][j];
    }
    assert KeywordAt(b, i, Keywords[k]);
  }

  /** Letter case never changes the guard's decision. */
  lemma ReadOnlyIgnoresCase(a: string, b: string)
    requires SameIgnoringCase(a, b)
    ensures IsReadOnly(a) <==> IsReadOnly(b)
  {
    ReadOnlyIffLeadingKeyword(a);
    ReadOnlyIffLeadingKeyword(b);
    if LeadsWithKeyword(a) {
      LeadsIgnoresCase(a, b);
    }
    if LeadsWithKeyword(b) {
      LeadsIgnoresCase(b, a);
    }
  }

  /** Whitespace added before or after a query never changes the guard's decision. */
  lemma ReadOnlyIgnoresPadding(a: string, q: string, b: string)
    requires AllSpace(a) && AllSpace(b)
    ensures IsReadOnly(a + q + b) <==> IsReadOnly(q)
  {
    StripIgnoresPadding(a, q, b);
  }

  /** Every keyword is upper-case. */
  lemma KeywordUpper(k: int)
    requires 0 <= k < |Keywords|
    ensures forall j :: 0 <= j < |Keywords[k]| ==> UpperChar(Keywords[k][j]) == Keywords[k][j]
  {
    if k == 0 {
      assert Keywords[k] == "SELECT";
    } else if k == 1 {
      assert Keywords[k] == "WITH";
    } else {
      assert Keywords[k] == "SHOW";
    }
  }

  /** Text that already starts with a keyword in upper case passes the guard. */
  lemma KeywordPrefixAccepted(q: string, k: int)
    requires 0 <= k < |Keywords| && StartsWith(q, Keywords[k])
    ensures IsReadOnly(q)
  {
    var kw := Keywords[k];
    KeywordUpper(k);
    forall j | 0 <= j < |kw|
      ensures UpperChar(q[j]) == kw[j]
    {
      assert q[j] == q[..|kw|][j];
    }
    KeywordAtStart(q, k);
  }

  lemma KeywordAtStart(q: string, k: int)
    requires 0 <= k < |Keywords| && KeywordAt(q, 0, Keywords[k])
    ensures IsReadOnly(q)
  {
    assert AllSpace(q[..0]);
    LeadsAccepted(q, 0, k);
  }

  /** The test is on characters, not words: a longer word that begins with a keyword passes. */
  lemma SelectedAccepted()
    ensures IsReadOnly("SELECTED")
  {
    assert KeywordAt("SELECTED", 0, Keywords[0]);
    KeywordAtStart("SELECTED", 0);
  }

  /** Letter case is ignored even inside a longer word. */
  lemma WithdrawAccepted()
    ensures IsReadOnly("withdraw")
  {
    assert KeywordAt("withdraw", 0, Keywords[1]);
    KeywordAtStart("withdraw", 1);
  }

  /** Surrounding whitespace and lower case do not stop a real read. */
  lemma PaddedShowAccepted()
    ensures IsReadOnly("  show tables ")
  {
    assert KeywordAt("  show tables ", 2, Keywords[2]);
    assert AllSpace("  show tables "[..2]);
    LeadsAccepted("  show tables ", 2, 2);
  }

  /** A string with a keyword as prefix is at least four characters long and begins with `S` or `W`. */
  lemma KeywordPrefixShape(n: string, k: int)
    requires 0 <= k < |Keywords|
    ensures StartsWith(n, Keywords[k]) ==> |n| >= 4 && (n[0] == 'S' || n[0] == 'W')
  {
    KeywordInitial(k);
    if StartsWith(n, Keywords[k]) {
      assert n[..|Keywords[k]|][0] == n[0];
      if k == 0 {
        assert Keywords[k] == "SELECT";
      } else if k == 1 {
        assert Keywords[k] == "WITH";
      } else {
        assert Keywords[k] == "SHOW";
      }
    }
  }

  /** Every keyword begins with `S` or `W`. */
  lemma KeywordInitial(k: int)
    requires 0 <= k < |Keywords|
    ensures |Keywords[k]| > 0 && (Keywords[k][0] == 'S' || Keywords[k][0] == 'W')
  {
    if k == 0 {
      assert Keywords[k] == "SELECT";
    } else if k == 1 {
      assert Keywords[k] == "WITH";
    } else {
      assert Keywords[k] == "SHOW";
    }
  }

  /** A query with nothing to strip whose first letter is no keyword's first letter is refused. */
  lemma RejectedByFirstLetter(q: string)
    requires |q| > 0 && Trimmed(q) && UpperChar(q[0]) != 'S' && UpperChar(q[0]) != 'W'
    ensures !IsReadOnly(q)
  {
    StripTrimmed(q);
    assert Normalize(q)[0] == UpperChar(q[0]);
  }

  /** A query with nothing to strip is compared as it stands, up to letter case. */
  lemma StripTrimmed(q: string)
    requires Trimmed(q)
    ensures Strip(q) == q
  {
    assert q == [] + q + [];
    StripExact([], q, []);
  }

  /** Only the start of the text is inspected: a read followed by a second,
      destructive statement passes the guard and is sent as a whole. */
  lemma StackedDropAccepted()
    ensures IsReadOnly("SELECT 1; DROP TABLE users")
  {
    var q := "SELECT 1; DROP TABLE users";
    assert q[..6] == Keywords[0];
    KeywordPrefixAccepted(q, 0);
  }

  /** A data-modifying common table expression starts with `WITH` and passes the guard. */
  lemma WritingCteAccepted()
    ensures IsReadOnly("WITH d AS (DELETE FROM users) SELECT 1")
  {
    var q := "WITH d AS (DELETE FROM users) SELECT 1";
    assert q[0] == 'W' && q[1] == 'I' && q[2] == 'T' && q[3] == 'H';
    assert q[..4] == Keywords[1];
    KeywordPrefixAccepted(q, 1);
  }

  /** A mutating statement is refused. */
  lemma DeleteRejected()
    ensures !IsReadOnly("DELETE FROM users")
  {
    RejectedByFirstLetter("DELETE FROM users");
  }

  /** A read behind a leading SQL comment is refused: the test does not skip comments. */
  lemma CommentedSelectRejected()
    ensures !IsReadOnly("-- note\nSELECT 1")
  {
    RejectedByFirstLetter("-- note\nSELECT 1");
  }
}
