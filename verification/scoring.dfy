/** The per-question scores of the evaluation script: source
    de-duplication, hit@k, rank and reciprocal rank, the precision proxy,
    tokenisation, lexical overlap and coverage, and the grounded and refusal
    flags. Ratios are exact rationals. */
module Scoring {
  import opened Common
  import opened Text
  import Settings

  // ------------------------------------------------------------ tokenisation

  /** A character of the pattern `[a-zA-Z0-9]`. */
  predicate IsWordChar(c: char) {
    ('a' <= c <= 'z') || ('A' <= c <= 'Z') || ('0' <= c <= '9')
  }

  /** A character a token can hold once the text is lowercased. */
  predicate IsTokenChar(c: char) {
    ('a' <= c <= 'z') || ('0' <= c <= '9')
  }

  /** Length of the longest prefix of word characters. */
  function WordPrefix(s: string): (n: nat)
    ensures n <= |s|
    ensures forall i :: 0 <= i < n ==> IsWordChar(s[i])
    ensures n < |s| ==> !IsWordChar(s[n])
  {
    if |s| > 0 && IsWordChar(s[0]) then 1 + WordPrefix(s[1..]) else 0
  }

  /** The matches of the word-character pattern: the maximal runs of word characters,
      left to right; every one is non-empty and made of word characters. */
  function Words(s: string): (ws: seq<string>)
    ensures forall i :: 0 <= i < |ws| ==> |ws[i]| > 0
    ensures forall i, j :: 0 <= i < |ws| && 0 <= j < |ws[i]| ==> IsWordChar(ws[i][j])
    decreases |s|
  {
    if |s| == 0 then []
    else if !IsWordChar(s[0]) then Words(s[1..])
    else
      var n := WordPrefix(s);
      [s[..n]] + Words(s[n..])
  }

  /** A text without capital letters has runs made of token characters. */
  lemma {:induction false} WordsOfLowercase(s: string)
    requires forall i :: 0 <= i < |s| ==> !('A' <= s[i] <= 'Z')
    ensures forall i, j :: 0 <= i < |Words(s)| && 0 <= j < |Words(s)[i]| ==> IsTokenChar(Words(s)[i][j])
    decreases |s|
  {
    if |s| > 0 {
      if !IsWordChar(s[0]) {
        WordsOfLowercase(s[1..]);
      } else {
        var n := WordPrefix(s);
        var rest := Words(s[n..]);
        WordsOfLowercase(s[n..]);
        var ws := Words(s);
        assert ws == [s[..n]] + rest;
        forall i, j | 0 <= i < |ws| && 0 <= j < |ws[i]| ensures IsTokenChar(ws[i][j]) {
          if i == 0 {
            assert ws[0][j] == s[j];
            assert IsWordChar(s[j]);
          } else {
            assert ws[i] == rest[i - 1];
          }
        }
      }
    }
  }

  /** `_tokenize`: the set of lowercased alphanumeric runs. */
  function Tokenize(text: string): (r: set<string>)
    ensures forall t :: t in r ==> |t| > 0 && forall j :: 0 <= j < |t| ==> IsTokenChar(t[j])
  {
    WordsOfLowercase(Lower(text));
    set t | t in Words(Lower(text))
  }

  lemma {:induction false} WordPrefixAppend(a: string, b: string)
    requires WordPrefix(a) < |a| || (|b| > 0 && !IsWordChar(b[0]))
    ensures WordPrefix(a + b) == WordPrefix(a)
    decreases |a|
  {
    if |a| == 0 {
      assert a + b == b;
    } else {
      assert (a + b)[0] == a[0];
      if IsWordChar(a[0]) {
        assert (a + b)[1..] == a[1..] + b;
        WordPrefixAppend(a[1..], b);
      }
    }
  }

  /** A non-word character separates: the runs of `a + [c] + b` are those
      of `a` followed by those of `b`. */
  lemma {:induction false} WordsSplit(a: string, c: char, b: string)
    requires !IsWordChar(c)
    ensures Words(a + [c] + b) == Words(a) + Words(b)
    decreases |a|
  {
    var s := a + [c] + b;
    assert s[0] == if |a| == 0 then c else a[0];
    if |a| == 0 {
      assert s[1..] == b;
      assert Words(s) == Words(b);
    } else if !IsWordChar(a[0]) {
      assert s[1..] == a[1..] + [c] + b;
      WordsSplit(a[1..], c, b);
      assert Words(s) == Words(a[1..] + [c] + b);
      assert Words(a) == Words(a[1..]);
    } else {
      var m := WordPrefix(a);
      WordPrefixAppend(a, [c] + b);
      assert s == a + ([c] + b);
      assert WordPrefix(s) == m;
      assert s[..m] == a[..m];
      assert s[m..] == a[m..] + [c] + b;
      WordsSplit(a[m..], c, b);
      assert Words(s) == [a[..m]] + Words(a[m..] + [c] + b);
      assert Words(a) == [a[..m]] + Words(a[m..]);
    }
  }

  lemma WordsOfJoined(x: string, y: string)
    ensures Words(Lower(x + " " + y)) == Words(Lower(x)) + Words(Lower(y))
  {
    LowerAppend(x + " ", y);
    LowerAppend(x, " ");
    assert Lower(" ") == " ";
    assert Lower(x + " " + y) == Lower(x) + [' '] + Lower(y);
    WordsSplit(Lower(x), ' ', Lower(y));
  }

  /** Tokenising two texts joined by a space gives the union of their tokens. */
  lemma TokenizeSplit(x: string, y: string)
    ensures Tokenize(x + " " + y) == Tokenize(x) + Tokenize(y)
  {
    WordsOfJoined(x, y);
  }

  /** A single lowercase alphanumeric word tokenises to itself alone. */
  lemma TokenizeWord(w: string)
    requires |w| > 0 && forall j :: 0 <= j < |w| ==> IsTokenChar(w[j])
    ensures Tokenize(w) == {w}
  {
    assert Lower(w) == w;
    WordPrefixAll(w);
    assert IsWordChar(w[0]);
    assert w[..|w|] == w && w[|w|..] == [];
    assert Words(w) == [w];
  }

  lemma WordPrefixAll(w: string)
    requires forall j :: 0 <= j < |w| ==> IsWordChar(w[j])
    ensures WordPrefix(w) == |w|
  {
    if |w| > 0 { WordPrefixAll(w[1..]); }
  }

  lemma TokenizeEmpty()
    ensures Tokenize("") == {}
  {
    assert Lower("") == "";
  }

  /** Expected keywords are lowercased but never tokenised, so a keyword that
      is empty or holds a character outside `[a-z0-9]` (a space, an
      uppercase-free punctuation mark) can never be among an answer's
      tokens. */
  lemma SeparatedKeywordNeverMatches(keyword: string, answer: string)
    requires |keyword| == 0 || exists j :: 0 <= j < |keyword| && !IsTokenChar(keyword[j])
    ensures keyword !in Tokenize(answer)
  {
  }

  // ------------------------------------------------------------ sources

  predicate NoDuplicates<T(==)>(xs: seq<T>) {
    forall i, j :: 0 <= i < j < |xs| ==> xs[i] != xs[j]
  }

  /** The first occurrence of an element of a prefix lies in the prefix. */
  lemma IndexOfPrefix<T>(xs: seq<T>, n: nat, x: T)
    requires n <= |xs| && x in xs[..n]
    ensures IndexOf(xs, x) == IndexOf(xs[..n], x)
  {
    var i := IndexOf(xs, x);
    var j := IndexOf(xs[..n], x);
    assert xs[..n][..j] == xs[..j];
    assert xs[j] == xs[..n][j] == x;
  }

  /** `r` lists each element of `xs` once, in the order of first occurrence. */
  ghost predicate FirstOccurrences(xs: seq<string>, r: seq<string>) {
    && NoDuplicates(r)
    && (forall x :: x in r <==> x in xs)
    && |r| <= |xs|
    && (forall i, j :: 0 <= i < j < |r| ==> IndexOf(xs, r[i]) < IndexOf(xs, r[j]))
  }

  /** Appending one element keeps the first-occurrence listing when the
      element is added exactly if it is new. */
  lemma FirstOccurrencesExtend(p: seq<string>, x: string, d: seq<string>)
    requires FirstOccurrences(p, d)
    ensures FirstOccurrences(p + [x], if x in d then d else d + [x])
  {
    var xs := p + [x];
    assert xs[..|p|] == p;
    forall y | y in d ensures IndexOf(xs, y) == IndexOf(p, y) {
      IndexOfPrefix(xs, |p|, y);
    }
    if x !in d {
      assert x !in p;
      assert IndexOf(xs, x) == |p|;
    }
  }

  /** Duplicate removal through a dictionary's keys: each source once, with the same set of
      sources, listed in the order of their first occurrence. */
  function Dedup(xs: seq<string>): (r: seq<string>)
    ensures NoDuplicates(r)
    ensures forall x :: x in r <==> x in xs
    ensures |r| <= |xs|
    ensures forall i, j :: 0 <= i < j < |r| ==> IndexOf(xs, r[i]) < IndexOf(xs, r[j])
  {
    if |xs| == 0 then []
    else
      var p := xs[..|xs| - 1];
      var x := xs[|xs| - 1];
      var d := Dedup(p);
      assert xs == p + [x];
      FirstOccurrencesExtend(p, x, d);
      if x in d then d else d + [x]
  }

  /** The top source: the first unique source, or none when nothing was
      retrieved. */
  function TopSource(unique: seq<string>): (r: Option<string>)
    ensures r.None? <==> |unique| == 0
    ensures r.Some? ==> r.value == unique[0]
  {
    if |unique| > 0 then Some(unique[0]) else None
  }

  /** `if expected_source`: present and non-empty. */
  predicate HasExpected(expected: Option<string>) {
    expected.Some? && expected.value != ""
  }

  /** hit@k: 1 when there is an expected source and it is among the first
      `k` unique sources, otherwise 0. */
  function HitAt(unique: seq<string>, expected: Option<string>, k: int): nat {
    if HasExpected(expected) then Flag(expected.value in SliceTo(unique, k)) else 0
  }

  /** hit@1: 1 when there is an expected source and it is the top source,
      otherwise 0. */
  function HitAt1(unique: seq<string>, expected: Option<string>): nat {
    if HasExpected(expected) then Flag(TopSource(unique) == expected) else 0
  }

  /** hit@1 <= hit@3 <= hit@4, each a 0/1 flag that is 0 without an
      expected source; hit@1 is 1 exactly when the expected source comes
      first. */
  lemma HitsOrdered(unique: seq<string>, expected: Option<string>)
    ensures HitAt1(unique, expected) <= HitAt(unique, expected, 3) <= HitAt(unique, expected, 4) <= 1
    ensures !HasExpected(expected) ==> HitAt1(unique, expected) == HitAt(unique, expected, 3) == HitAt(unique, expected, 4) == 0
    ensures HitAt1(unique, expected) == 1 <==> HasExpected(expected) && |unique| > 0 && unique[0] == expected.value
  {
    if HasExpected(expected) && TopSource(unique) == expected {
      assert unique[0] in SliceTo(unique, 3);
    }
    if HasExpected(expected) && expected.value in SliceTo(unique, 3) {
      var i :| 0 <= i < |SliceTo(unique, 3)| && SliceTo(unique, 3)[i] == expected.value;
      assert SliceTo(unique, 4)[i] == expected.value;
    }
  }

  /** The rank of the expected source within the first `top_k` unique
      sources: its 1-based position there, or none when it is missing,
      empty or outside that window. */
  function SourceRank(unique: seq<string>, expected: Option<string>, topK: int): (r: Option<nat>)
    ensures r.Some? <==> HasExpected(expected) && expected.value in SliceTo(unique, topK)
    ensures r.Some? ==>
      var w := SliceTo(unique, topK);
      && 1 <= r.value <= |w|
      && w[r.value - 1] == expected.value
      && expected.value !in w[..r.value - 1]
  {
    var w := SliceTo(unique, topK);
    if HasExpected(expected) && expected.value in w then Some(IndexOf(w, expected.value) + 1) else None
  }

  /** `1 / rank`, or 0 without a rank. */
  function ReciprocalRank(rank: Option<nat>): (rr: real)
    requires rank.Some? ==> rank.value >= 1
    ensures 0.0 <= rr <= 1.0
    ensures rank.None? ==> rr == 0.0
    ensures rank.Some? ==> rr > 0.0 && rr == 1.0 / rank.value as real
  {
    if rank.Some? then 1.0 / rank.value as real else 0.0
  }

  /** The precision proxy: 1 over the size of the top-k window (at least 1)
      when the expected source lies in the window, else 0. Unlike the hits
      and the rank it does not first test `if expected_source`. */
  function PrecisionAtK(unique: seq<string>, expected: Option<string>, topK: int): (p: real)
    ensures 0.0 <= p <= 1.0
    ensures !(expected.Some? && expected.value in SliceTo(unique, topK)) ==> p == 0.0
    ensures expected.Some? && expected.value in SliceTo(unique, topK) ==>
      p == 1.0 / Max(1, Min(topK, |unique|)) as real
  {
    var hit := if expected.Some? && expected.value in SliceTo(unique, topK) then 1.0 else 0.0;
    hit / Max(1, Min(topK, |unique|)) as real
  }

  /** With a non-empty expected source and a non-negative `top_k`, the
      precision proxy is positive exactly when there is a rank, and it never
      exceeds the reciprocal rank. */
  lemma PrecisionWithinReciprocalRank(unique: seq<string>, expected: Option<string>, topK: int)
    requires HasExpected(expected) && topK >= 0
    ensures var rank := SourceRank(unique, expected, topK);
      var p := PrecisionAtK(unique, expected, topK);
      && (p > 0.0 <==> rank.Some?)
      && p <= ReciprocalRank(rank)
  {
    var rank := SourceRank(unique, expected, topK);
    if rank.Some? {
      var w := SliceTo(unique, topK);
      var d := Max(1, Min(topK, |unique|));
      assert |w| <= d;
      var r := rank.value;
      assert r <= d;
      var p := PrecisionAtK(unique, expected, topK);
      assert p == 1.0 / d as real;
      ReciprocalAntitone(r as real, d as real);
    }
  }

  lemma ReciprocalAntitone(r: real, d: real)
    requires 0.0 < r <= d
    ensures 1.0 / d <= 1.0 / r
  {
    assert (1.0 / d) * d == 1.0;
    assert (1.0 / r) * r == 1.0;
    assert (1.0 / d) * r <= (1.0 / d) * d;
  }

  /** An empty expected source has no hits and no rank, yet still earns
      precision when a retrieved source is itself the empty string. */
  lemma EmptyExpectedSourceStillScoresPrecision(topK: int)
    requires topK >= 1
    ensures HitAt(["", "b.pdf"], Some(""), 4) == 0
    ensures SourceRank(["", "b.pdf"], Some(""), topK).None?
    ensures PrecisionAtK(["", "b.pdf"], Some(""), topK) > 0.0
  {
    assert SliceTo(["", "b.pdf"], topK)[0] == "";
  }

  /** The example of a source found second in a window of four: hit@1 is 0,
      hit@3 and hit@4 are 1, the rank is 2 and the reciprocal rank 0.5. */
  lemma FoundSecondExample(unique: seq<string>, e: string)
    requires e != "" && |unique| >= 2 && unique[0] != e && unique[1] == e
    ensures HitAt1(unique, Some(e)) == 0
    ensures HitAt(unique, Some(e), 3) == 1 && HitAt(unique, Some(e), 4) == 1
    ensures SourceRank(unique, Some(e), 4) == Some(2)
    ensures ReciprocalRank(SourceRank(unique, Some(e), 4)) == 0.5
  {
    assert SliceTo(unique, 3)[1] == e;
    assert SliceTo(unique, 4)[1] == e;
    var w := SliceTo(unique, 4);
    assert w[0] != e && w[1] == e;
    assert IndexOf(w, e) == 1;
  }

  // ------------------------------------------------------------ answer scores

  const GroundedThreshold: real := 0.15

  /** `|common| / |base|`, or 0 when `base` is empty. */
  function SetRatio(base: set<string>, other: set<string>): (r: real)
    ensures 0.0 <= r <= 1.0
    ensures |base| == 0 ==> r == 0.0
    ensures r == 1.0 <==> |base| > 0 && base <= other
  {
    SubsetCard(base * other, base);
    if |base| == 0 then 0.0
    else
      assert base * other == base <==> base <= other;
      assert base * other != base ==> |base * other| < |base| by {
        if base * other != base { ProperSubsetCard(base * other, base); }
      }
      |base * other| as real / |base| as real
  }

  /** The ratio scaled by the size of `base` is the number of shared
      elements, and it is 0 exactly when nothing is shared. */
  lemma SetRatioValue(base: set<string>, other: set<string>)
    ensures |base| > 0 ==> SetRatio(base, other) * |base| as real == |base * other| as real
    ensures SetRatio(base, other) == 0.0 <==> base * other == {}
  {
    SubsetCard(base * other, base);
  }

  /** The answer-context overlap: the share of the answer's tokens that also
      occur in the context. */
  function AnswerContextOverlap(answer: string, context: string): (r: real)
    ensures 0.0 <= r <= 1.0
    ensures Tokenize(answer) == {} ==> r == 0.0
    ensures r == 1.0 <==> Tokenize(answer) != {} && Tokenize(answer) <= Tokenize(context)
  {
    SetRatio(Tokenize(answer), Tokenize(context))
  }

  /** The expected-keyword coverage: the share of the lowercased expected
      keywords that occur among the answer's tokens. */
  function KeywordCoverage(answer: string, keywords: seq<string>): (r: real)
    ensures 0.0 <= r <= 1.0
    ensures |keywords| == 0 ==> r == 0.0
    ensures r == 1.0 <==> |keywords| > 0 && forall k :: k in keywords ==> Lower(k) in Tokenize(answer)
  {
    var lowered := LowerAll(keywords);
    var expected := set x | x in lowered;
    assert |keywords| > 0 ==> lowered[0] in expected;
    assert expected <= Tokenize(answer) <==> forall k :: k in keywords ==> Lower(k) in Tokenize(answer) by {
      forall k | k in keywords ensures Lower(k) in expected {
        var i :| 0 <= i < |keywords| && keywords[i] == k;
        assert lowered[i] == Lower(k);
      }
    }
    SetRatio(expected, Tokenize(answer))
  }

  /** Every keyword lowercased, in order. */
  function LowerAll(keywords: seq<string>): (r: seq<string>)
    ensures |r| == |keywords| && forall i :: 0 <= i < |keywords| ==> r[i] == Lower(keywords[i])
  {
    if |keywords| == 0 then [] else [Lower(keywords[0])] + LowerAll(keywords[1..])
  }

  /** `is_grounded`: a non-blank answer whose overlap reaches 0.15. */
  function IsGrounded(answer: string, overlap: real): (g: nat)
    ensures g == 1 <==> !IsBlank(answer) && overlap >= GroundedThreshold
    ensures g <= 1
  {
    if !IsBlank(answer) then Flag(overlap >= GroundedThreshold) else 0
  }

  /** `is_refusal`: the lowercased refusal text occurs in the lowercased
      answer. */
  function IsRefusal(answer: string): (f: nat)
    ensures f == 1 <==> IsSubstring(Lower(Settings.RefusalText), Lower(answer))
    ensures f <= 1
  {
    Flag(IsSubstring(Lower(Settings.RefusalText), Lower(answer)))
  }

  /** The refusal text itself, and any answer containing it, counts as a
      refusal. */
  lemma RefusalDetected(before: string, after: string)
    ensures IsRefusal(before + Settings.RefusalText + after) == 1
  {
    var a := before + Settings.RefusalText + after;
    LowerAppend(before + Settings.RefusalText, after);
    LowerAppend(before, Settings.RefusalText);
    var l := Lower(a);
    var p := Lower(Settings.RefusalText);
    assert l[|before|..|before| + |p|] == p;
    SubstringAt(p, l, |before|);
  }

  /** The refusal text is itself a refusal. */
  lemma RefusalTextIsRefusal()
    ensures IsRefusal(Settings.RefusalText) == 1
  {
    assert "" + Settings.RefusalText + "" == Settings.RefusalText;
    RefusalDetected("", "");
  }

  /** An empty context shares no token with any answer. */
  lemma NoContextNoOverlap(answer: string)
    ensures AnswerContextOverlap(answer, "") == 0.0
  {
    TokenizeEmpty();
    assert Tokenize(answer) * Tokenize("") == {};
  }
}
