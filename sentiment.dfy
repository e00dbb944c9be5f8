/**
 * The label rule of the dashboard (`get_sentiment_vader`): the text is
 * stripped of surrounding whitespace, text shorter than five characters is
 * declared neutral with score 0.0, and otherwise the compound polarity score
 * of a lexicon scorer is mapped to a label by two thresholds.
 *
 * The lexicon scorer (VADER's `polarity_scores(...)["compound"]`) is not
 * modelled: it is a parameter `scorer` of type `string -> real`.
 */
module Sentiment {

  /** The labels the dashboard knows. `Error` is reserved: the filter that
      follows labelling drops it, and the classifier never produces it. */
  datatype Label = Positive | Negative | Neutral | Error

  /** A label together with the confidence score displayed beside it. */
  datatype Classification = Classification(sentiment: Label, score: real)

  /** Stripped text shorter than this is considered too short to score. */
  const MinLength: nat := 5
  /** A score at or above this threshold is positive. */
  const PositiveThreshold: real := 0.05
  /** A score at or below this threshold is negative. */
  const NegativeThreshold: real := -0.05

  /** The characters Python's `str.isspace` accepts, which are the ones
      `str.strip()` removes when called without arguments. */
  predicate IsSpace(c: char) {
    || ('\U{0009}' <= c <= '\U{000D}')
    || ('\U{001C}' <= c <= '\U{0020}')
    || c == '\U{0085}' || c == '\U{00A0}' || c == '\U{1680}'
    || ('\U{2000}' <= c <= '\U{200A}')
    || c == '\U{2028}' || c == '\U{2029}' || c == '\U{202F}'
    || c == '\U{205F}' || c == '\U{3000}'
  }

  predicate AllSpace(s: string) {
    forall i :: 0 <= i < |s| ==> IsSpace(s[i])
  }

  /** `str.lstrip()`: the longest suffix that does not start with whitespace. */
  function StripLeft(s: string): (r: string)
    ensures |r| <= |s| && r == s[|s| - |r|..]
    ensures forall i :: 0 <= i < |s| - |r| ==> IsSpace(s[i])
    ensures r == [] || !IsSpace(r[0])
  {
    if |s| > 0 && IsSpace(s[0]) then
      var r := StripLeft(s[1..]);
      assert s[1..][|s| - 1 - |r|..] == s[|s| - |r|..];
      r
    else s
  }

  /** `str.rstrip()`: the longest prefix that does not end with whitespace. */
  function StripRight(s: string): (r: string)
    ensures |r| <= |s| && r == s[..|r|]
    ensures forall i :: |r| <= i < |s| ==> IsSpace(s[i])
    ensures r == [] || !IsSpace(r[|r| - 1])
  {
    if |s| > 0 && IsSpace(s[|s| - 1]) then
      var r := StripRight(s[..|s| - 1]);
      assert s[..|s| - 1][..|r|] == s[..|r|];
      r
    else s
  }

  /** `str.strip()`: the text between the leading and the trailing whitespace. */
  function Strip(s: string): (r: string)
    ensures |r| <= |s|
    ensures r == [] || (!IsSpace(r[0]) && !IsSpace(r[|r| - 1]))
  {
    StripRight(StripLeft(s))
  }

  lemma StripLeftSplit(s: string) returns (p: string)
    ensures s == p + StripLeft(s) && AllSpace(p)
  {
    var l := StripLeft(s);
    p := s[..|s| - |l|];
    assert s == p + l;
    forall i | 0 <= i < |p| ensures IsSpace(p[i]) { assert p[i] == s[i]; }
  }

  lemma StripRightSplit(s: string) returns (q: string)
    ensures s == StripRight(s) + q && AllSpace(q)
  {
    var r := StripRight(s);
    q := s[|r|..];
    assert s == r + q;
    forall i | 0 <= i < |q| ensures IsSpace(q[i]) { assert q[i] == s[|r| + i]; }
  }

  /** Regrouping step kept separate so the solver does not search for it. */
  lemma Substitute(s: string, p: string, l: string, r: string, q: string)
    requires s == p + l && l == r + q
    ensures s == p + r + q
  {
  }

  /** What `Strip` removes is whitespace, on both sides of what it keeps. */
  lemma StripSplit(s: string) returns (p: string, q: string)
    ensures s == p + Strip(s) + q
    ensures AllSpace(p) && AllSpace(q)
  {
    p := StripLeftSplit(s);
    q := StripRightSplit(StripLeft(s));
    Substitute(s, p, StripLeft(s), Strip(s), q);
  }

  lemma {:induction false} StripLeftOfPadded(a: string, x: string)
    requires AllSpace(a)
    requires x == [] || !IsSpace(x[0])
    ensures StripLeft(a + x) == x
  {
    if a != [] {
      assert (a + x)[1..] == a[1..] + x;
      StripLeftOfPadded(a[1..], x);
    } else {
      assert a + x == x;
    }
  }

  lemma {:induction false} StripRightOfPadded(x: string, b: string)
    requires AllSpace(b)
    requires x == [] || !IsSpace(x[|x| - 1])
    ensures StripRight(x + b) == x
  {
    if b != [] {
      assert (x + b)[..|x + b| - 1] == x + b[..|b| - 1];
      StripRightOfPadded(x, b[..|b| - 1]);
    } else {
      assert x + b == x;
    }
  }

  lemma AllSpaceConcat(a: string, b: string)
    requires AllSpace(a) && AllSpace(b)
    ensures AllSpace(a + b)
  {
    forall k | 0 <= k < |a + b| ensures IsSpace((a + b)[k]) {
      if k >= |a| { assert (a + b)[k] == b[k - |a|]; }
    }
  }

  /** Stripping is determined by its characterisation: whatever whitespace
      surrounds a core that neither starts nor ends with whitespace, the
      core is what `Strip` returns. */
  lemma {:induction false} StripOfPadded(a: string, m: string, b: string)
    requires AllSpace(a) && AllSpace(b)
    requires m == [] || (!IsSpace(m[0]) && !IsSpace(m[|m| - 1]))
    ensures Strip(a + m + b) == m
  {
    if m == [] {
      assert a + m + b == (a + b) + [];
      AllSpaceConcat(a, b);
      StripLeftOfPadded(a + b, []);
    } else {
      assert a + m + b == a + (m + b);
      StripLeftOfPadded(a, m + b);
      StripRightOfPadded(m, b);
    }
  }

  lemma StripIdempotent(s: string)
    ensures Strip(Strip(s)) == Strip(s)
  {
    var m := Strip(s);
    assert [] + m + [] == m;
    StripOfPadded([], m, []);
  }

  /** `get_sentiment_vader`: the label and score of a text, given the scorer. */
  function Classify(scorer: string -> real, text: string): (r: Classification)
    ensures |Strip(text)| < MinLength ==> r == Classification(Neutral, 0.0)
    ensures |Strip(text)| >= MinLength ==> r.score == scorer(Strip(text))
    ensures r.sentiment == Positive <==> r.score >= PositiveThreshold
    ensures r.sentiment == Negative <==> r.score <= NegativeThreshold
    ensures r.sentiment == Neutral <==> NegativeThreshold < r.score < PositiveThreshold
    ensures r.sentiment != Error
  {
    var t := Strip(text);
    if |t| < MinLength then
      Classification(Neutral, 0.0)
    else
      var score := scorer(t);
      if score >= PositiveThreshold then Classification(Positive, score)
      else if score <= NegativeThreshold then Classification(Negative, score)
      else Classification(Neutral, score)
  }

  /** When the scorer stays within [-1, 1], so does every returned score. */
  lemma ScoreInRange(scorer: string -> real, text: string)
    requires forall s :: -1.0 <= scorer(s) <= 1.0
    ensures -1.0 <= Classify(scorer, text).score <= 1.0
  {
  }

  /** The scorer is consulted on the stripped text only, and not at all
      when that text is short: two scorers that agree there give the same
      result. */
  lemma ScorerSeenOnlyOnStrippedText(f: string -> real, g: string -> real, text: string)
    requires |Strip(text)| < MinLength || f(Strip(text)) == g(Strip(text))
    ensures Classify(f, text) == Classify(g, text)
  {
  }

  /** Regrouping step kept separate so the solver does not search for it. */
  lemma Regroup(a: string, p: string, m: string, q: string, b: string)
    ensures a + (p + m + q) + b == (a + p) + m + (q + b)
  {
  }

  /** Surrounding whitespace never changes the stripped text. */
  lemma {:induction false} StripIgnoresPadding(a: string, text: string, b: string)
    requires AllSpace(a) && AllSpace(b)
    ensures Strip(a + text + b) == Strip(text)
  {
    var m := Strip(text);
    var p, q := StripSplit(text);
    Regroup(a, p, m, q, b);
    AllSpaceConcat(a, p);
    AllSpaceConcat(q, b);
    StripOfPadded(a + p, m, q + b);
  }

  /** The classification depends on the text only through its stripped form. */
  lemma ClassifyDependsOnStripped(scorer: string -> real, x: string, y: string)
    requires Strip(x) == Strip(y)
    ensures Classify(scorer, x) == Classify(scorer, y)
  {
  }

  /** Surrounding whitespace never changes the classification. */
  lemma ClassifyIgnoresPadding(scorer: string -> real, a: string, text: string, b: string)
    requires AllSpace(a) && AllSpace(b)
    ensures Classify(scorer, a + text + b) == Classify(scorer, text)
  {
    StripIgnoresPadding(a, text, b);
    ClassifyDependsOnStripped(scorer, a + text + b, text);
  }

  /** Classifying the stripped text gives the same result as classifying the
      text itself: the classification is a function of the stripped text. */
  lemma ClassifyOfStripped(scorer: string -> real, text: string)
    ensures Classify(scorer, Strip(text)) == Classify(scorer, text)
  {
    StripIdempotent(text);
    ClassifyDependsOnStripped(scorer, Strip(text), text);
  }

  /** Text of two characters is neutral with score 0.0 whatever the scorer. */
  lemma ShortTextIsNeutral(scorer: string -> real)
    ensures Classify(scorer, "ok") == Classification(Neutral, 0.0)
  {
    assert Strip("ok") == "ok" by {
      StripOfPadded([], "ok", []);
      assert [] + "ok" + [] == "ok";
    }
  }
}
