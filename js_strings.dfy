/** Models of the JavaScript string built-ins that the episode page uses:
    a global `String.prototype.replace` whose pattern matches one literal
    string, `String.prototype.trim`, and the decimal rendering of a
    non-negative integer (how React writes a number into an attribute). */
module JsString {

  /** `p` is a prefix of `s`. */
  predicate StartsWith(s: string, p: string) {
    |p| <= |s| && s[..|p|] == p
  }

  /** `pat` occurs in `s` starting at index `i`. */
  predicate OccursAt(s: string, pat: string, i: nat) {
    i + |pat| <= |s| && s[i..i + |pat|] == pat
  }

  predicate Occurs(s: string, pat: string) {
    exists i: nat :: i <= |s| && OccursAt(s, pat, i)
  }

  /** A prefix no longer than `s` is unaffected by what follows `s`. */
  lemma StartsWithExtend(s: string, t: string, p: string)
    requires |p| <= |s|
    ensures StartsWith(s + t, p) <==> StartsWith(s, p)
  {
    assert (s + t)[..|p|] == s[..|p|];
  }

  /** An occurrence in a suffix is an occurrence in the whole text. */
  lemma OccursAtSuffix(s: string, pat: string, n: nat, i: nat)
    requires n <= |s|
    ensures OccursAt(s[n..], pat, i) ==> OccursAt(s, pat, n + i)
  {
    if OccursAt(s[n..], pat, i) {
      assert s[n..][i..i + |pat|] == s[n + i..n + i + |pat|];
    }
  }

  /** No character of `u` is `c`. */
  predicate Avoids(u: string, c: char) {
    forall k :: 0 <= k < |u| ==> u[k] != c
  }

  lemma StartsWithCons(c: char, x: string, p: string)
    requires p != []
    ensures StartsWith([c] + x, p) <==> c == p[0] && StartsWith(x, p[1..])
  {
    if |p| <= |[c] + x| {
      assert ([c] + x)[..|p|] == [c] + x[..|p| - 1];
      assert p == [p[0]] + p[1..];
    }
  }

  /** `s.replace(/pat/g, rep)` where `pat` matches only itself: the input is
      scanned from the left; at each position where `pat` starts, it is
      replaced by `rep` and the scan resumes after the match, so matches
      never overlap. */
  function ReplaceAll(s: string, pat: string, rep: string): string
    requires pat != []
    decreases |s|
  {
    if StartsWith(s, pat) then rep + ReplaceAll(s[|pat|..], pat, rep)
    else if s == [] then []
    else [s[0]] + ReplaceAll(s[1..], pat, rep)
  }

  /** Where the pattern never occurs, replacing changes nothing. */
  lemma {:induction false} ReplaceAllNoMatch(s: string, pat: string, rep: string)
    requires pat != []
    requires !Occurs(s, pat)
    ensures ReplaceAll(s, pat, rep) == s
    decreases |s|
  {
    if s != [] {
      assert !OccursAt(s, pat, 0);
      assert !StartsWith(s, pat);
      forall i: nat ensures !OccursAt(s[1..], pat, i) {
        OccursAtSuffix(s, pat, 1, i);
      }
      ReplaceAllNoMatch(s[1..], pat, rep);
      assert s == [s[0]] + s[1..];
    }
  }

  /** A prefix none of whose characters can start a match is copied as it
      is, and the scan goes on with the rest. */
  lemma {:induction false} ReplaceAllSkip(u: string, t: string, pat: string, rep: string)
    requires pat != []
    requires Avoids(u, pat[0])
    ensures ReplaceAll(u + t, pat, rep) == u + ReplaceAll(t, pat, rep)
    decreases |u|
  {
    if u != [] {
      var s := u + t;
      assert s == [u[0]] + (u[1..] + t);
      StartsWithCons(u[0], u[1..] + t, pat);
      assert s[1..] == u[1..] + t;
      ReplaceAllSkip(u[1..], t, pat, rep);
      assert u == [u[0]] + u[1..];
    } else {
      assert u + t == t;
    }
  }

  /** A match at the front is replaced and the scan resumes after it. */
  lemma ReplaceAllFront(t: string, pat: string, rep: string)
    requires pat != []
    ensures ReplaceAll(pat + t, pat, rep) == rep + ReplaceAll(t, pat, rep)
  {
    assert (pat + t)[..|pat|] == pat;
    assert (pat + t)[|pat|..] == t;
  }

  /** The characters `String.prototype.trim` removes: ECMAScript WhiteSpace
      (tab, vertical tab, form feed, no-break space, the byte order mark and
      the Unicode space separators) and LineTerminator (line feed, carriage
      return, line and paragraph separators). */
  predicate IsWhitespace(c: char) {
    var n := c as int;
    n == 0x09 || n == 0x0A || n == 0x0B || n == 0x0C || n == 0x0D
    || n == 0x20 || n == 0xA0 || n == 0x1680 || (0x2000 <= n <= 0x200A)
    || n == 0x2028 || n == 0x2029 || n == 0x202F || n == 0x205F
    || n == 0x3000 || n == 0xFEFF
  }

  predicate AllWhitespace(s: string) {
    forall k :: 0 <= k < |s| ==> IsWhitespace(s[k])
  }

  /** Neither end of `s` is a whitespace character. */
  predicate Trimmed(s: string) {
    s == [] || (!IsWhitespace(s[0]) && !IsWhitespace(s[|s| - 1]))
  }

  /** Drops the leading whitespace: the result is the suffix of `s` that
      starts at its first non-whitespace character. */
  function TrimStart(s: string): (r: string)
    ensures |r| <= |s| && r == s[|s| - |r|..]
    ensures AllWhitespace(s[..|s| - |r|])
    ensures r == [] || !IsWhitespace(r[0])
  {
    if s != [] && IsWhitespace(s[0]) then TrimStart(s[1..]) else s
  }

  /** Drops the trailing whitespace: the result is the prefix of `s` that
      ends at its last non-whitespace character. */
  function TrimEnd(s: string): (r: string)
    ensures |r| <= |s| && r == s[..|r|]
    ensures AllWhitespace(s[|r|..])
    ensures r == [] || !IsWhitespace(r[|r| - 1])
  {
    if s != [] && IsWhitespace(s[|s| - 1]) then TrimEnd(s[..|s| - 1]) else s
  }

  /** `s.trim()`: `s` is the result with whitespace around it, and the result
      neither starts nor ends with whitespace. */
  function Trim(s: string): (r: string)
    ensures Trimmed(r)
    ensures exists a, b :: s == a + r + b && AllWhitespace(a) && AllWhitespace(b)
  {
    TrimSplits(s);
    TrimEnd(TrimStart(s))
  }

  /** The whitespace the two halves of the trim drop, and what is kept,
      make up the input. */
  lemma TrimSplits(s: string)
    ensures var t := TrimStart(s); var r := TrimEnd(t);
      var a, b := s[..|s| - |t|], t[|r|..];
      s == a + r + b && AllWhitespace(a) && AllWhitespace(b)
  {
    var t := TrimStart(s);
    var r := TrimEnd(t);
    var a, b := s[..|s| - |t|], t[|r|..];
    SplitAt(s, |s| - |t|);
    SplitAt(t, |r|);
    Regroup(s, a, t, r, b);
  }

  lemma SplitAt(s: string, n: nat)
    requires n <= |s|
    ensures s == s[..n] + s[n..]
  {
  }

  lemma Regroup(s: string, a: string, t: string, r: string, b: string)
    requires s == a + t && t == r + b
    ensures s == a + r + b
  {
  }

  lemma {:induction false} TrimStartLeading(a: string, r: string)
    requires AllWhitespace(a)
    requires r == [] || !IsWhitespace(r[0])
    ensures TrimStart(a + r) == r
    decreases |a|
  {
    if a != [] {
      assert (a + r)[1..] == a[1..] + r;
      TrimStartLeading(a[1..], r);
    } else {
      assert a + r == r;
    }
  }

  lemma {:induction false} TrimEndTrailing(r: string, b: string)
    requires AllWhitespace(b)
    requires r == [] || !IsWhitespace(r[|r| - 1])
    ensures TrimEnd(r + b) == r
    decreases |b|
  {
    if b != [] {
      assert (r + b)[..|r + b| - 1] == r + b[..|b| - 1];
      TrimEndTrailing(r, b[..|b| - 1]);
    } else {
      assert r + b == r;
    }
  }

  /** Trim's result is determined by its contract: whenever `s` is a
      trimmed `r` wrapped in whitespace, `s.trim()` is exactly `r`. */
  lemma TrimUnique(s: string, a: string, r: string, b: string)
    requires s == a + r + b && AllWhitespace(a) && AllWhitespace(b)
    requires Trimmed(r)
    ensures Trim(s) == r
  {
    if r == [] {
      assert s == a + b;
      assert AllWhitespace(a + b);
      TrimStartLeading(a + b, []);
      assert a + b + [] == a + b;
    } else {
      assert s == a + (r + b);
      TrimStartLeading(a, r + b);
      TrimEndTrailing(r, b);
    }
  }

  /** A text with no whitespace at either end is its own trim. */
  lemma TrimOfTrimmed(s: string)
    requires Trimmed(s)
    ensures Trim(s) == s
  {
    assert s == [] + s + [];
    TrimUnique(s, [], s, []);
  }

  /** Trimming twice is trimming once. */
  lemma TrimIdempotent(s: string)
    ensures Trim(Trim(s)) == Trim(s)
  {
    TrimOfTrimmed(Trim(s));
  }

  /** The character of a decimal digit. */
  function DigitChar(d: nat): (c: char)
    requires d < 10
    ensures '0' <= c <= '9' && c as int - '0' as int == d
  {
    (d + '0' as int) as char
  }

  predicate AllDigits(s: string) {
    forall k :: 0 <= k < |s| ==> '0' <= s[k] <= '9'
  }

  /** `String(n)` for a non-negative integer: its decimal digits, most
      significant first, without leading zeros. */
  function Decimal(n: nat): (r: string)
    ensures r != [] && AllDigits(r)
    ensures r[0] == '0' ==> n == 0
    decreases n
  {
    if n < 10 then [DigitChar(n)] else Decimal(n / 10) + [DigitChar(n % 10)]
  }

  /** The number a string of decimal digits denotes. */
  function DecimalValue(s: string): nat
    requires AllDigits(s)
  {
    if s == [] then 0
    else DecimalValue(s[..|s| - 1]) * 10 + (s[|s| - 1] as int - '0' as int)
  }

  /** Reading back the decimal rendering gives the number again. */
  lemma {:induction false} DecimalRoundTrip(n: nat)
    ensures DecimalValue(Decimal(n)) == n
    decreases n
  {
    if n >= 10 {
      var r := Decimal(n);
      assert r[..|r| - 1] == Decimal(n / 10);
      DecimalRoundTrip(n / 10);
    }
  }
}
