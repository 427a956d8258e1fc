/** The plain-text page description of an episode (`getPageDescription`):
    the HTML rendered from the episode's markdown has its line breaks
    normalised by three global replacements around a sentinel, is trimmed,
    has its tags stripped and gets a fixed prefix naming the episode.

    The three replacements are modelled as written, with `ReplaceAll`, and
    are proved equal to a one-pass reference, `CollapseNewlines`, which
    makes their quirks explicit: a literal sentinel already in the text
    also becomes a paragraph break, and in a run of three line feeds the
    first two stay a paragraph break and the third becomes a space. */
module Description {
  import opened JsString

  /** The placeholder the first pass puts where a paragraph break was. */
  const Sentinel: string := "DOUBLE_NEW_LINE"

  /** Two line feeds: a paragraph break in markdown-rendered HTML. */
  const ParagraphBreak: string := "\n\n"

  /** The three passes of `getPageDescription` followed by the trim, as
      written: paragraph breaks to the sentinel, every remaining line feed
      to a space, every sentinel to a paragraph break. The result is the
      trimmed one-pass reference and has no whitespace at either end. */
  function NormaliseLineBreaks(html: string): (r: string)
    ensures r == Trim(CollapseNewlines(html))
    ensures Trimmed(r)
  {
    NormalisationIsCollapse(html);
    Trim(ReplaceAll(ReplaceAll(ReplaceAll(html, ParagraphBreak, Sentinel), "\n", " "), Sentinel, ParagraphBreak))
  }

  /** Reference definition of the three passes (before the trim), read left
      to right in one scan: a paragraph break stays, a lone line feed
      becomes a space, a literal sentinel becomes a paragraph break, and
      every other character is kept. */
  function CollapseNewlines(s: string): string
    decreases |s|
  {
    if StartsWith(s, ParagraphBreak) then ParagraphBreak + CollapseNewlines(s[2..])
    else if StartsWith(s, Sentinel) then ParagraphBreak + CollapseNewlines(s[|Sentinel|..])
    else if s == [] then []
    else if s[0] == '\n' then " " + CollapseNewlines(s[1..])
    else [s[0]] + CollapseNewlines(s[1..])
  }

  /** The text between the second and the third pass, in one scan:
      paragraph breaks are sentinels, lone line feeds are spaces. */
  function SentinelForm(s: string): string
    decreases |s|
  {
    if StartsWith(s, ParagraphBreak) then Sentinel + SentinelForm(s[2..])
    else if s == [] then []
    else if s[0] == '\n' then " " + SentinelForm(s[1..])
    else [s[0]] + SentinelForm(s[1..])
  }

  /** The first two passes produce the sentinel form. */
  lemma {:induction false} FirstTwoPasses(s: string)
    ensures ReplaceAll(ReplaceAll(s, ParagraphBreak, Sentinel), "\n", " ") == SentinelForm(s)
    decreases |s|
  {
    var pass1 := ReplaceAll(s, ParagraphBreak, Sentinel);
    if StartsWith(s, ParagraphBreak) {
      var t := s[2..];
      assert pass1 == Sentinel + ReplaceAll(t, ParagraphBreak, Sentinel);
      ReplaceAllSkip(Sentinel, ReplaceAll(t, ParagraphBreak, Sentinel), "\n", " ");
      FirstTwoPasses(t);
    } else if s == [] {
    } else {
      var t := s[1..];
      var rest := ReplaceAll(t, ParagraphBreak, Sentinel);
      assert pass1 == [s[0]] + rest;
      if s[0] == '\n' {
        ReplaceAllFront(rest, "\n", " ");
      } else {
        ReplaceAllSkip([s[0]], rest, "\n", " ");
      }
      FirstTwoPasses(t);
    }
  }

  /** A prefix without line feeds passes through the sentinel form unchanged. */
  lemma {:induction false} SentinelFormSkip(u: string, t: string)
    requires Avoids(u, '\n')
    ensures SentinelForm(u + t) == u + SentinelForm(t)
    decreases |u|
  {
    if u != [] {
      var s := u + t;
      assert s == [u[0]] + (u[1..] + t);
      StartsWithCons(u[0], u[1..] + t, ParagraphBreak);
      assert s[1..] == u[1..] + t;
      SentinelFormSkip(u[1..], t);
      assert u == [u[0]] + u[1..];
    } else {
      assert u + t == t;
    }
  }

  /** If the sentinel form of `t` starts with a text that holds no 'D'
      (the first letter of the sentinel), no space and no line feed, then
      `t` itself starts with that text: such a text can only have been
      copied from `t`. */
  lemma {:induction false} SentinelFormPrefix(t: string, w: string)
    requires Avoids(w, 'D') && Avoids(w, ' ') && Avoids(w, '\n')
    ensures StartsWith(SentinelForm(t), w) ==> StartsWith(t, w)
    decreases |w|
  {
    if w != [] && t != [] && StartsWith(SentinelForm(t), w) {
      SentinelFormFront(t);
      var rest := SentinelForm(t[1..]);
      assert SentinelForm(t) == [t[0]] + rest;
      StartsWithCons(t[0], rest, w);
      SentinelFormPrefix(t[1..], w[1..]);
      StartsWithCons(t[0], t[1..], w);
      assert t == [t[0]] + t[1..];
    }
  }

  /** The sentinel form of a non-empty text starts with a sentinel, with a
      space, or with the text's own first character followed by the
      sentinel form of the rest. */
  lemma SentinelFormFront(t: string)
    requires t != []
    ensures var f := SentinelForm(t);
      f != [] && (f[0] == 'D' || f[0] == ' ' || (f[0] != '\n' && f == [t[0]] + SentinelForm(t[1..])))
  {
  }

  /** The third pass turns the sentinel form into the one-pass reference. */
  lemma {:induction false} ThirdPass(s: string)
    ensures ReplaceAll(SentinelForm(s), Sentinel, ParagraphBreak) == CollapseNewlines(s)
    decreases |s|
  {
    if StartsWith(s, ParagraphBreak) {
      ReplaceAllFront(SentinelForm(s[2..]), Sentinel, ParagraphBreak);
      ThirdPass(s[2..]);
    } else if StartsWith(s, Sentinel) {
      var t := s[|Sentinel|..];
      assert s == Sentinel + t;
      SentinelFormSkip(Sentinel, t);
      ReplaceAllFront(SentinelForm(t), Sentinel, ParagraphBreak);
      ThirdPass(t);
    } else if s == [] {
    } else {
      var t := s[1..];
      if s[0] == '\n' {
        ReplaceAllSkip(" ", SentinelForm(t), Sentinel, ParagraphBreak);
      } else if s[0] != 'D' {
        ReplaceAllSkip([s[0]], SentinelForm(t), Sentinel, ParagraphBreak);
      } else {
        var rest := SentinelForm(t);
        assert s == [s[0]] + t;
        StartsWithCons(s[0], t, Sentinel);
        StartsWithCons(s[0], rest, Sentinel);
        SentinelFormPrefix(t, Sentinel[1..]);
        assert !StartsWith([s[0]] + rest, Sentinel);
        assert ([s[0]] + rest)[1..] == rest;
      }
      ThirdPass(t);
    }
  }

  /** The three passes, as written, compute the one-pass reference. */
  lemma NormalisationIsCollapse(html: string)
    ensures ReplaceAll(ReplaceAll(ReplaceAll(html, ParagraphBreak, Sentinel), "\n", " "), Sentinel, ParagraphBreak)
      == CollapseNewlines(html)
  {
    FirstTwoPasses(html);
    ThirdPass(html);
  }

  /** Every line feed in the collapsed text belongs to a paragraph break
      that starts at an even offset within its run: no lone line feed is
      left. */
  predicate PairedNewlines(s: string)
    decreases |s|
  {
    if StartsWith(s, ParagraphBreak) then PairedNewlines(s[2..])
    else s == [] || (s[0] != '\n' && PairedNewlines(s[1..]))
  }

  /** After the three passes no line feed stands alone. */
  lemma {:induction false} CollapseLeavesNoLoneNewline(s: string)
    ensures PairedNewlines(CollapseNewlines(s))
    decreases |s|
  {
    if StartsWith(s, ParagraphBreak) {
      var r := CollapseNewlines(s[2..]);
      CollapseLeavesNoLoneNewline(s[2..]);
      assert (ParagraphBreak + r)[..2] == ParagraphBreak && (ParagraphBreak + r)[2..] == r;
    } else if StartsWith(s, Sentinel) {
      var r := CollapseNewlines(s[|Sentinel|..]);
      CollapseLeavesNoLoneNewline(s[|Sentinel|..]);
      assert (ParagraphBreak + r)[..2] == ParagraphBreak && (ParagraphBreak + r)[2..] == r;
    } else if s != [] {
      var c := if s[0] == '\n' then ' ' else s[0];
      var r := CollapseNewlines(s[1..]);
      assert CollapseNewlines(s) == [c] + r;
      CollapseLeavesNoLoneNewline(s[1..]);
      StartsWithCons(c, r, ParagraphBreak);
      assert ([c] + r)[1..] == r;
    }
  }

  /** Without a literal sentinel the collapse works in place: the length
      is kept, every character other than a line feed stays where it was,
      and every line feed becomes a line feed or a space at the same place
      (which of the two is stated by `CollapsePairsPlaces`). */
  lemma {:induction false} CollapseKeepsPlaces(s: string)
    requires !Occurs(s, Sentinel)
    ensures |CollapseNewlines(s)| == |s|
    ensures forall k :: 0 <= k < |s| && s[k] != '\n' ==> CollapseNewlines(s)[k] == s[k]
    ensures forall k :: 0 <= k < |s| && s[k] == '\n' ==> CollapseNewlines(s)[k] in "\n "
    decreases |s|
  {
    if s != [] {
      assert !OccursAt(s, Sentinel, 0);
      CollapseUnfold(s);
      var n := StepLen(s);
      assert (n == |StepOut(s)| && s[..n] == StepOut(s)) || (n == 1 && s[0] == '\n' && StepOut(s) == " ");
      NoSentinelInSuffix(s, n);
      CollapseKeepsPlaces(s[n..]);
    }
  }

  lemma NoSentinelInSuffix(s: string, n: nat)
    requires n <= |s| && !Occurs(s, Sentinel)
    ensures !Occurs(s[n..], Sentinel)
  {
    forall i: nat | i <= |s[n..]| ensures !OccursAt(s[n..], Sentinel, i) {
      OccursAtSuffix(s, Sentinel, n, i);
    }
  }

  lemma IndexAfter(x: string, y: string, k: nat)
    requires |x| <= k < |x| + |y|
    ensures (x + y)[k] == y[k - |x|]
  {
  }

  /** The number of line feeds just before index `k`. */
  function RunBefore(s: string, k: nat): nat
    requires k <= |s|
    decreases k
  {
    if k == 0 || s[k - 1] != '\n' then 0 else 1 + RunBefore(s, k - 1)
  }

  /** The line feed at `k` belongs to a pair when the left-to-right pairing
      of its run puts it second (an odd number of line feeds before it), or
      puts it first and another line feed follows. */
  predicate InPair(s: string, k: nat)
    requires k < |s|
  {
    RunBefore(s, k) % 2 == 1 || (k + 1 < |s| && s[k + 1] == '\n')
  }

  /** Without a literal sentinel, each line feed of the input stays a line
      feed exactly when the left-to-right pairing of its run of line feeds
      gives it a partner; every other line feed becomes a space. */
  lemma {:induction false} CollapsePairsPlaces(s: string)
    requires !Occurs(s, Sentinel)
    ensures |CollapseNewlines(s)| == |s|
    ensures forall k :: 0 <= k < |s| && s[k] == '\n' ==> (CollapseNewlines(s)[k] == '\n' <==> InPair(s, k))
    decreases |s|
  {
    CollapseKeepsPlaces(s);
    if s != [] {
      assert !OccursAt(s, Sentinel, 0);
      CollapseUnfold(s);
      var n := StepLen(s);
      NoSentinelInSuffix(s, n);
      CollapsePairsPlaces(s[n..]);
      PairsAtFront(s);
      forall k | n <= k < |s| && s[k] == '\n'
        ensures CollapseNewlines(s)[k] == '\n' <==> InPair(s, k)
      {
        IndexAfter(StepOut(s), CollapseNewlines(s[n..]), k);
        PairsAfterFront(s, k);
      }
    }
  }

  /** The line feeds consumed by the first step of the scan. */
  lemma PairsAtFront(s: string)
    requires s != [] && !StartsWith(s, Sentinel)
    ensures forall k :: 0 <= k < StepLen(s) && s[k] == '\n' ==>
      (StepOut(s)[k] == '\n' <==> InPair(s, k))
  {
    if StartsWith(s, ParagraphBreak) {
      assert s[0] == '\n' && s[1] == '\n';
      assert RunBefore(s, 1) == 1;
    } else if s[0] == '\n' {
      if 1 < |s| {
        assert s[..2] == [s[0], s[1]];
      }
    }
  }

  /** After the first step of the scan, a line feed is paired in the rest
      exactly as it is in the whole text. */
  lemma PairsAfterFront(s: string, k: nat)
    requires s != [] && !StartsWith(s, Sentinel)
    requires StepLen(s) <= k < |s| && s[k] == '\n'
    ensures InPair(s, k) <==> InPair(s[StepLen(s)..], k - StepLen(s))
  {
    var n := StepLen(s);
    var t := s[n..];
    RunShift(s, n, k);
    assert k + 1 < |s| ==> s[k + 1] == t[k - n + 1];
    if StartsWith(s, ParagraphBreak) {
      assert s[0] == '\n' && s[1] == '\n';
      assert RunBefore(s, 2) == 2 + RunBefore(s, 0);
    } else if s[0] == '\n' {
      if 1 < |s| {
        assert s[..2] == [s[0], s[1]];
      }
      if RunBefore(t, k - n) == k - n {
        RunReachesStart(t, k - n);
      }
    }
  }

  /** A run of line feeds that reaches back to the start of the text makes
      its first character a line feed. */
  lemma {:induction false} RunReachesStart(t: string, k: nat)
    requires 0 < k <= |t| && RunBefore(t, k) == k
    ensures t[0] == '\n'
    decreases k
  {
    if k > 1 {
      RunReachesStart(t, k - 1);
    }
  }

  /** The run before `k` counted in the suffix from `n`, plus the run
      before `n` when it reaches back that far. */
  lemma {:induction false} RunShift(s: string, n: nat, k: nat)
    requires n <= k <= |s|
    ensures var r := RunBefore(s[n..], k - n);
      RunBefore(s, k) == r + (if r == k - n then RunBefore(s, n) else 0)
    decreases k
  {
    if k > n {
      assert s[n..][k - n - 1] == s[k - 1];
      RunShift(s, n, k - 1);
    }
  }

  /** A text with no line feed and no literal sentinel comes out of the
      normalisation only trimmed. */
  lemma NoNewlinesOnlyTrimmed(s: string)
    requires Avoids(s, '\n') && !Occurs(s, Sentinel)
    ensures NormaliseLineBreaks(s) == Trim(s)
  {
    CollapseUnchanged(s);
  }

  lemma CollapseUnchanged(s: string)
    requires Avoids(s, '\n') && !Occurs(s, Sentinel)
    ensures CollapseNewlines(s) == s
  {
    CollapseKeepsPlaces(s);
  }

  /** The four cases of the one-pass reference, one scan step each. */
  lemma CollapseSteps(c: char, t: string)
    ensures CollapseNewlines(ParagraphBreak + t) == ParagraphBreak + CollapseNewlines(t)
    ensures CollapseNewlines(Sentinel + t) == ParagraphBreak + CollapseNewlines(t)
    ensures !StartsWith(t, "\n") ==> CollapseNewlines("\n" + t) == " " + CollapseNewlines(t)
    ensures c != '\n' && c != 'D' ==> CollapseNewlines([c] + t) == [c] + CollapseNewlines(t)
  {
    assert (ParagraphBreak + t)[..2] == ParagraphBreak && (ParagraphBreak + t)[2..] == t;
    assert (Sentinel + t)[..|Sentinel|] == Sentinel && (Sentinel + t)[|Sentinel|..] == t;
    assert ("\n" + t)[1..] == t && ([c] + t)[1..] == t;
    StartsWithCons('\n', t, ParagraphBreak);
    StartsWithCons(c, t, ParagraphBreak);
    StartsWithCons(c, t, Sentinel);
  }

  /** In a run of exactly three line feeds the first two stay a paragraph
      break and the third becomes a space. */
  lemma ThreeNewlines(t: string)
    requires !StartsWith(t, "\n")
    ensures CollapseNewlines("\n\n\n" + t) == "\n\n " + CollapseNewlines(t)
  {
    CollapseSteps(' ', "\n" + t);
    CollapseSteps(' ', t);
    assert "\n\n\n" + t == ParagraphBreak + ("\n" + t);
    assert "\n\n " + CollapseNewlines(t) == ParagraphBreak + (" " + CollapseNewlines(t));
  }

  /** No scan step can straddle the front of a sentinel: a text in front of
      a sentinel is collapsed on its own. Neither a paragraph break nor a
      sentinel can start in `a` and end in `t`, because `t` starts with a
      `D` and the sentinel has no `D` after its first letter. */
  lemma {:induction false} CollapseBeforeSentinel(a: string, t: string)
    requires StartsWith(t, Sentinel)
    ensures CollapseNewlines(a + t) == CollapseNewlines(a) + CollapseNewlines(t)
    decreases |a|
  {
    if a == [] {
      assert a + t == t;
    } else {
      var n := StepLen(a);
      SameStep(a, t);
      CollapseUnfold(a);
      CollapseUnfold(a + t);
      SplitAfter(a, t, n);
      CollapseBeforeSentinel(a[n..], t);
      Reassociate(StepOut(a), CollapseNewlines(a), CollapseNewlines(a[n..]),
        CollapseNewlines(a + t), CollapseNewlines(a[n..] + t), CollapseNewlines(t));
    }
  }

  lemma SplitAfter(a: string, t: string, n: nat)
    requires n <= |a|
    ensures (a + t)[n..] == a[n..] + t
  {
  }

  lemma Reassociate(out: string, ca: string, ca2: string, cat: string, cat2: string, ct: string)
    requires ca == out + ca2 && cat == out + cat2 && cat2 == ca2 + ct
    ensures cat == ca + ct
  {
  }

  /** How much one step of `CollapseNewlines` consumes of a non-empty text. */
  function StepLen(s: string): nat
    requires s != []
  {
    if StartsWith(s, ParagraphBreak) then 2 else if StartsWith(s, Sentinel) then |Sentinel| else 1
  }

  /** What one step of `CollapseNewlines` writes for a non-empty text. */
  function StepOut(s: string): string
    requires s != []
  {
    if StartsWith(s, ParagraphBreak) || StartsWith(s, Sentinel) then ParagraphBreak
    else if s[0] == '\n' then " " else [s[0]]
  }

  /** The one-pass reference, one step at a time. */
  lemma CollapseUnfold(s: string)
    requires s != []
    ensures StepLen(s) <= |s| && CollapseNewlines(s) == StepOut(s) + CollapseNewlines(s[StepLen(s)..])
  {
    if StartsWith(s, ParagraphBreak) {
      assert StepLen(s) == 2 && StepOut(s) == ParagraphBreak;
    } else if StartsWith(s, Sentinel) {
      assert StepLen(s) == |Sentinel| && StepOut(s) == ParagraphBreak;
    } else {
      assert StepLen(s) == 1;
    }
  }

  /** A sentinel after a non-empty text does not change the first step. */
  lemma SameStep(a: string, t: string)
    requires a != [] && StartsWith(t, Sentinel)
    ensures StepLen(a + t) == StepLen(a) && StepOut(a + t) == StepOut(a)
  {
    assert (a + t)[0] == a[0];
    if StartsWith(a, ParagraphBreak) {
      StartsWithExtend(a, t, ParagraphBreak);
    } else if StartsWith(a, Sentinel) {
      StartsWithExtend(a, t, Sentinel);
      assert a[0] == 'D';
    } else {
      NoMatchAcross(a, t);
    }
  }

  /** A non-empty text that starts with neither a paragraph break nor a
      sentinel still starts with neither once a sentinel follows it. */
  lemma NoMatchAcross(a: string, t: string)
    requires a != [] && StartsWith(t, Sentinel)
    requires !StartsWith(a, ParagraphBreak) && !StartsWith(a, Sentinel)
    ensures !StartsWith(a + t, ParagraphBreak) && !StartsWith(a + t, Sentinel)
  {
    if |a| >= 2 {
      assert (a + t)[..2] == a[..2];
    } else {
      assert (a + t)[1] == t[0] == 'D';
    }
    if |a| >= |Sentinel| {
      assert (a + t)[..|Sentinel|] == a[..|Sentinel|];
    } else {
      var j := |a|;
      assert (a + t)[j] == t[0] == 'D';
      assert j == 1 || j == 2 || j == 3 || j == 4 || j == 5 || j == 6 || j == 7
        || j == 8 || j == 9 || j == 10 || j == 11 || j == 12 || j == 13 || j == 14;
      assert Sentinel[j] != 'D';
    }
  }

  /** A literal `DOUBLE_NEW_LINE` anywhere in the text becomes a paragraph
      break, and the text on either side of it is collapsed on its own. */
  lemma SentinelSplits(a: string, b: string)
    ensures CollapseNewlines(a + Sentinel + b) == CollapseNewlines(a) + ParagraphBreak + CollapseNewlines(b)
  {
    assert a + Sentinel + b == a + (Sentinel + b);
    assert (Sentinel + b)[..|Sentinel|] == Sentinel;
    CollapseBeforeSentinel(a, Sentinel + b);
    CollapseSteps(' ', b);
  }

  /** A literal sentinel already in the text, with no whitespace around it
      in the text, survives as a paragraph break: the instance of
      `SentinelSplits` whose two sides the collapse and the trim leave as
      they are. */
  lemma LiteralSentinel(a: string, b: string)
    requires Avoids(a, '\n') && !Occurs(a, Sentinel) && a != [] && !IsWhitespace(a[0])
    requires Avoids(b, '\n') && !Occurs(b, Sentinel) && b != [] && !IsWhitespace(b[|b| - 1])
    ensures NormaliseLineBreaks(a + Sentinel + b) == a + ParagraphBreak + b
  {
    var r := a + ParagraphBreak + b;
    SentinelSplits(a, b);
    CollapseUnchanged(a);
    CollapseUnchanged(b);
    assert r[0] == a[0] && r[|r| - 1] == b[|b| - 1];
    TrimOfTrimmed(r);
  }

  /** The fixed prefix: `Episode <numberDisplay> of the live JavaScript
      broadcast podcast. ` */
  function DescriptionPrefix(numberDisplay: string): string {
    "Episode " + numberDisplay + " of the live JavaScript broadcast podcast. "
  }

  /** `getPageDescription(numberDisplay, descriptionHTML)`; `stripTags`
      stands for the `striptags` library, which is not modelled. The result
      is the prefix followed by the tag-stripped, normalised text. */
  function GetPageDescription(numberDisplay: string, html: string, stripTags: string -> string): (r: string)
    ensures StartsWith(r, DescriptionPrefix(numberDisplay))
    ensures r[|DescriptionPrefix(numberDisplay)|..] == stripTags(Trim(CollapseNewlines(html)))
  {
    DescriptionPrefix(numberDisplay) + stripTags(NormaliseLineBreaks(html))
  }

  /** A description with no line feed, no literal sentinel and no
      whitespace at either end reaches the tag stripper untouched; so for
      episode 5 with `<p>Hi</p>` the result is the prefix followed by
      whatever the stripper makes of `<p>Hi</p>`. */
  lemma PlainDescription(numberDisplay: string, html: string, stripTags: string -> string)
    requires Avoids(html, '\n') && !Occurs(html, Sentinel) && Trimmed(html)
    ensures GetPageDescription(numberDisplay, html, stripTags) == DescriptionPrefix(numberDisplay) + stripTags(html)
  {
    NoNewlinesOnlyTrimmed(html);
    TrimOfTrimmed(html);
  }
}
