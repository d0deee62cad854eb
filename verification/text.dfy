/** Character-level string helpers shared by the response cleaner and the
    prompt builders: Python's notion of whitespace, `str.strip()` and
    prefix slicing `s[:n]`. Strings are sequences of Unicode code points,
    as Python's `str` is. */
module Text {

  /** Python's `str.isspace()`, which is also what the `\s` class of a
      `re` pattern over `str` matches: the tab-to-carriage-return controls,
      the four information separators, space, NEL, no-break space and the
      Unicode space separators. */
  predicate IsSpace(c: char) {
    var n := c as int;
    || (9 <= n <= 13)
    || (28 <= n <= 32)
    || n == 0x85
    || n == 0xA0
    || n == 0x1680
    || (0x2000 <= n <= 0x200A)
    || n == 0x2028
    || n == 0x2029
    || n == 0x202F
    || n == 0x205F
    || n == 0x3000
  }

  predicate AllSpace(s: string) {
    forall i :: 0 <= i < |s| ==> IsSpace(s[i])
  }

  /** Neither end of `s` is whitespace: what `str.strip()` produces. */
  predicate IsTrimmed(s: string) {
    |s| == 0 || (!IsSpace(s[0]) && !IsSpace(s[|s| - 1]))
  }

  predicate StartsWith(s: string, p: string) {
    |p| <= |s| && s[..|p|] == p
  }

  predicate NoBackticks(s: string) {
    forall i :: 0 <= i < |s| ==> s[i] != '`'
  }

  function Min(a: nat, b: nat): nat {
    if a <= b then a else b
  }

  /** Length of the maximal whitespace run at the start of `s`. */
  function SpaceRun(s: string): (k: nat)
    ensures k <= |s|
    ensures forall i :: 0 <= i < k ==> IsSpace(s[i])
    ensures k < |s| ==> !IsSpace(s[k])
  {
    if |s| == 0 || !IsSpace(s[0]) then 0 else 1 + SpaceRun(s[1..])
  }

  /** Length of the maximal whitespace run at the end of `s`. */
  function TrailingSpaceRun(s: string): (k: nat)
    ensures k <= |s|
    ensures forall i :: |s| - k <= i < |s| ==> IsSpace(s[i])
    ensures k < |s| ==> !IsSpace(s[|s| - k - 1])
  {
    if |s| == 0 || !IsSpace(s[|s| - 1]) then 0 else 1 + TrailingSpaceRun(s[..|s| - 1])
  }

  /** A whitespace prefix that is followed by a non-space (or by nothing)
      is the maximal leading run. */
  lemma SpaceRunUnique(s: string, m: nat)
    requires m <= |s| && AllSpace(s[..m])
    requires m < |s| ==> !IsSpace(s[m])
    ensures SpaceRun(s) == m
  {
  }

  /** The mirror image of `SpaceRunUnique` for the end of `s`. */
  lemma TrailingSpaceRunUnique(s: string, m: nat)
    requires m <= |s| && AllSpace(s[|s| - m..])
    requires m < |s| ==> !IsSpace(s[|s| - m - 1])
    ensures TrailingSpaceRun(s) == m
  {
  }

  /** Python's `s.strip()` with no argument: `s` with the whitespace cut
      from both ends. */
  function Trim(s: string): (r: string)
    ensures IsTrimmed(r)
    ensures exists i, j :: 0 <= i <= j <= |s| && r == s[i..j] && AllSpace(s[..i]) && AllSpace(s[j..])
  {
    var i := SpaceRun(s);
    var t := s[i..];
    var k := TrailingSpaceRun(t);
    var j := i + |t| - k;
    assert t[..|t| - k] == s[i..j];
    assert s[j..] == t[|t| - k..];
    assert AllSpace(s[..i]);
    assert AllSpace(s[j..]);
    s[i..j]
  }

  /** `s[:n]` — the longest prefix of `s` that is at most `n` long. */
  function Prefix(s: string, n: nat): (r: string)
    ensures |r| == Min(|s|, n)
    ensures r == s[..|r|]
  {
    if |s| <= n then s else s[..n]
  }

  /** Trimming is characterised by its contract: any trimmed infix of `s`
      that leaves only whitespace on either side IS `Trim(s)`. */
  lemma TrimUnique(s: string, pre: string, t: string, post: string)
    requires s == pre + t + post
    requires AllSpace(pre) && AllSpace(post) && IsTrimmed(t)
    ensures Trim(s) == t
  {
    if |t| == 0 {
      assert AllSpace(s) by {
        forall m | 0 <= m < |s| ensures IsSpace(s[m]) {
          if m < |pre| { assert s[m] == pre[m]; } else { assert s[m] == post[m - |pre|]; }
        }
      }
      assert s[..|s|] == s;
      SpaceRunUnique(s, |s|);
    } else {
      assert s[..|pre|] == pre;
      assert s[|pre|] == t[0];
      SpaceRunUnique(s, |pre|);
      var rest := s[|pre|..];
      assert rest == t + post;
      assert rest[|rest| - |post|..] == post;
      assert rest[|t| - 1] == t[|t| - 1];
      TrailingSpaceRunUnique(rest, |post|);
      assert rest[..|t|] == t;
    }
  }

  lemma TrimOfTrimmed(s: string)
    requires IsTrimmed(s)
    ensures Trim(s) == s
  {
    TrimUnique(s, [], s, []);
  }

  /** `strip()` is idempotent. */
  lemma TrimIdempotent(s: string)
    ensures Trim(Trim(s)) == Trim(s)
  {
    TrimOfTrimmed(Trim(s));
  }

  /** Trimming only removes characters, so it introduces no backtick. */
  lemma TrimKeepsNoBackticks(s: string)
    requires NoBackticks(s)
    ensures NoBackticks(Trim(s))
  {
    var i, j :| 0 <= i <= j <= |s| && Trim(s) == s[i..j] && AllSpace(s[..i]) && AllSpace(s[j..]);
    assert forall m :: 0 <= m < j - i ==> Trim(s)[m] == s[i + m];
  }
}
