/**
 The email check of RegisterForm.jsx: `/\S+@\S+\.\S+/.test(email)`. The regular
 expression is not anchored, so it accepts any string that CONTAINS a run of
 non-space characters, an '@', a run of non-space characters, a '.', and a run
 of non-space characters. The executable check is a one-pass scan that tracks
 the states of that pattern; it is proved equal to the substring definition.
 */
module EmailPattern {

  /** JavaScript's `\s`: the white-space and line-terminator characters of ECMAScript. */
  predicate IsSpace(c: char)
  {
    || c == '\t' || c == '\n' || c == '\U{000B}' || c == '\U{000C}' || c == '\r' || c == ' '
    || c == '\U{00A0}' || c == '\U{1680}' || ('\U{2000}' <= c <= '\U{200A}')
    || c == '\U{2028}' || c == '\U{2029}' || c == '\U{202F}' || c == '\U{205F}'
    || c == '\U{3000}' || c == '\U{FEFF}'
  }

  /** No character of s[lo..hi] is a space. */
  ghost predicate NonSpaceRange(s: string, lo: int, hi: int)
    requires 0 <= lo <= hi <= |s|
  {
    forall k :: lo <= k < hi ==> !IsSpace(s[k])
  }

  /** s[a..e] matches `\S+@\S+\.\S+` with its '@' at i and its '.' at j. */
  ghost predicate MatchAt(s: string, a: int, i: int, j: int, e: int)
  {
    && 0 <= a < i && i + 1 < j && j + 1 < e <= |s|
    && s[i] == '@' && s[j] == '.'
    && NonSpaceRange(s, a, i) && NonSpaceRange(s, i + 1, j) && NonSpaceRange(s, j + 1, e)
  }

  /** What `test` decides: some substring matches the pattern. */
  ghost predicate ContainsMatch(s: string)
  {
    exists a, i, j, e :: MatchAt(s, a, i, j, e)
  }

  /** The pattern's progress after a prefix: inside the first run, just after
      the '@', inside the second run, just after the '.', and whether a whole
      match has been seen. */
  datatype Scan = Scan(first: bool, at: bool, second: bool, dot: bool, found: bool)

  const Start: Scan := Scan(false, false, false, false, false)

  function Step(st: Scan, c: char): Scan
  {
    Scan(
      !IsSpace(c),
      c == '@' && st.first,
      !IsSpace(c) && (st.at || st.second),
      c == '.' && st.second,
      st.found || (!IsSpace(c) && st.dot))
  }

  /** The scan state after the first n characters. */
  function ScanTo(s: string, n: nat): Scan
    requires n <= |s|
  {
    if n == 0 then Start else Step(ScanTo(s, n - 1), s[n - 1])
  }

  /** `/\S+@\S+\.\S+/.test(s)`. */
  function Matches(s: string): (b: bool)
    ensures b <==> ContainsMatch(s)
  {
    ScanCorrect(s);
    ScanTo(s, |s|).found
  }

  // ------------------------------------------------ the scan's meaning

  /** The prefix of length n ends inside a first run. */
  ghost predicate InFirst(s: string, n: nat)
    requires n <= |s|
  {
    n >= 1 && !IsSpace(s[n - 1])
  }

  /** The prefix ends with an '@' that follows a non-space character. */
  ghost predicate AfterAt(s: string, n: nat)
    requires n <= |s|
  {
    n >= 2 && s[n - 1] == '@' && !IsSpace(s[n - 2])
  }

  /** The prefix ends with at least one non-space character after such an '@'. */
  ghost predicate SecondAt(s: string, n: nat, i: int)
    requires n <= |s|
  {
    1 <= i && i + 1 < n && s[i] == '@' && !IsSpace(s[i - 1]) && NonSpaceRange(s, i + 1, n)
  }

  ghost predicate InSecond(s: string, n: nat)
    requires n <= |s|
  {
    exists i :: SecondAt(s, n, i)
  }

  /** The prefix ends with a '.' that closes a second run. */
  ghost predicate AfterDot(s: string, n: nat)
    requires n <= |s|
  {
    n >= 1 && s[n - 1] == '.' && InSecond(s, n - 1)
  }

  /** Some prefix no longer than n ends a whole match. */
  ghost predicate EndsMatch(s: string, m: nat)
    requires m <= |s|
  {
    m >= 1 && !IsSpace(s[m - 1]) && AfterDot(s, m - 1)
  }

  ghost predicate Found(s: string, n: nat)
    requires n <= |s|
  {
    exists m :: 0 <= m <= n && EndsMatch(s, m)
  }

  ghost function Expected(s: string, n: nat): Scan
    requires n <= |s|
  {
    Scan(InFirst(s, n), AfterAt(s, n), InSecond(s, n), AfterDot(s, n), Found(s, n))
  }

  lemma SecondStep(s: string, n: nat)
    requires n < |s|
    ensures InSecond(s, n + 1) <==> !IsSpace(s[n]) && (AfterAt(s, n) || InSecond(s, n))
  {
    if InSecond(s, n + 1) {
      var i :| SecondAt(s, n + 1, i);
      if i + 1 < n {
        assert SecondAt(s, n, i);
      } else {
        assert i + 1 == n;
        assert AfterAt(s, n);
      }
    }
    if !IsSpace(s[n]) && AfterAt(s, n) {
      assert SecondAt(s, n + 1, n - 1);
    }
    if !IsSpace(s[n]) && InSecond(s, n) {
      var i :| SecondAt(s, n, i);
      assert SecondAt(s, n + 1, i);
    }
  }

  lemma FoundStep(s: string, n: nat)
    requires n < |s|
    ensures Found(s, n + 1) <==> Found(s, n) || (!IsSpace(s[n]) && AfterDot(s, n))
  {
    if Found(s, n + 1) {
      var m :| 0 <= m <= n + 1 && EndsMatch(s, m);
      if m <= n {
        assert Found(s, n);
      }
    }
    if !IsSpace(s[n]) && AfterDot(s, n) {
      assert EndsMatch(s, n + 1);
    }
    if Found(s, n) {
      var m :| 0 <= m <= n && EndsMatch(s, m);
      assert 0 <= m <= n + 1;
    }
  }

  /** The scan state after n characters is exactly what its five flags mean. */
  lemma {:induction false} ScanInvariant(s: string, n: nat)
    requires n <= |s|
    ensures ScanTo(s, n) == Expected(s, n)
  {
    if n == 0 {
      assert !InSecond(s, 0);
      assert !Found(s, 0);
    } else {
      ScanInvariant(s, n - 1);
      SecondStep(s, n - 1);
      FoundStep(s, n - 1);
    }
  }

  /** A whole match found by the scan yields the substring, and back. */
  lemma ScanCorrect(s: string)
    ensures ScanTo(s, |s|).found <==> ContainsMatch(s)
  {
    ScanInvariant(s, |s|);
    if Found(s, |s|) {
      var m :| 0 <= m <= |s| && EndsMatch(s, m);
      var i :| SecondAt(s, m - 2, i);
      assert MatchAt(s, i - 1, i, m - 2, m);
    }
    if ContainsMatch(s) {
      var a, i, j, e :| MatchAt(s, a, i, j, e);
      assert !IsSpace(s[i - 1]);
      assert SecondAt(s, j, i);
      assert EndsMatch(s, j + 2);
    }
  }

  /** Two small cases: a plain address is accepted, a bare name is refused. */
  lemma Examples()
    ensures Matches("a@b.c")
    ensures !Matches("ab")
  {
    assert MatchAt("a@b.c", 0, 1, 3, 5);
  }
}
