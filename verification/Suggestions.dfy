/** Ranking "did you mean" suggestions.

    Texts are byte strings, one character per byte, as the length and bigram
    arithmetic of the original works on bytes.  Scores are exact reals. */
module Suggestions {

  // ---------- Texts ----------

  function Lower(c: char): char {
    if 'A' <= c <= 'Z' then c + 32 as char else c
  }

  function LowerAll(s: string): (t: string)
    ensures |t| == |s|
  {
    seq(|s|, i requires 0 <= i < |s| => Lower(s[i]))
  }

  function TrimDashes(s: string): (t: string)
    ensures |t| <= |s|
  {
    if s != "" && s[0] == '-' then TrimDashes(s[1..]) else s
  }

  /** The form in which a candidate is compared. */
  function Normal(candidate: string): string {
    LowerAll(TrimDashes(candidate))
  }

  predicate OccursAt(hay: string, needle: string, i: nat) {
    i + |needle| <= |hay| && hay[i..i + |needle|] == needle
  }

  predicate Contains(hay: string, needle: string) {
    exists i :: 0 <= i <= |hay| && OccursAt(hay, needle, i)
  }

  /** Candidates are compared without leading dashes, and everything in lower case. */
  lemma NormalMeaning(rest: string, candidate: string, i: nat)
    ensures Normal("-" + rest) == Normal(rest)
    ensures candidate != "" && candidate[0] != '-' ==> Normal(candidate) == LowerAll(candidate)
    ensures i < |candidate| ==>
              LowerAll(candidate)[i] ==
              if 'A' <= candidate[i] <= 'Z' then 'a' + (candidate[i] - 'A') else candidate[i]
  {
    assert ("-" + rest)[1..] == rest;
  }

  // ---------- Bigram overlap ----------

  function BigramAt(s: string, i: nat): (char, char)
    requires i + 1 < |s|
  {
    (s[i], s[i + 1])
  }

  function Bigrams(s: string): set<(char, char)> {
    set i | 0 <= i < |s| - 1 :: BigramAt(s, i)
  }

  /** How many of the first `n` bigrams of `b` occur in `a`. */
  function Matches(a: string, b: string, n: nat): (m: nat)
    requires n == 0 || n < |b|
    ensures m <= n
  {
    if n == 0 then 0
    else Matches(a, b, n - 1) + if BigramAt(b, n - 1) in Bigrams(a) then 1 else 0
  }

  function Max(x: nat, y: nat): nat { if x < y then y else x }

  function BigramOverlap(a: string, b: string): real {
    if |a| < 2 || |b| < 2 then 0.0
    else
      var total := Max(|Bigrams(a)|, |b| - 1);
      Matches(a, b, |b| - 1) as real / total as real
  }

  // ---------- The score ----------

  function Score(input: string, candidate: string): real {
    if input == candidate then 1.0
    else
      var typed, cand := LowerAll(input), Normal(candidate);
      if cand == typed then 1.0
      else if typed <= cand then 0.8 + 0.15 * (|typed| as real / |cand| as real)
      else if cand <= typed then 0.7 + 0.25 * (|cand| as real / |typed| as real)
      else if Contains(cand, typed) then 0.6
      else if Contains(typed, cand) then 0.55
      else BigramOverlap(typed, cand)
  }

  lemma ProperRatio(m: nat, n: nat)
    requires m < n
    ensures 0.0 <= m as real / n as real < 1.0
  {
  }

  lemma Fraction(m: nat, n: nat)
    requires m <= n && 0 < n
    ensures 0.0 <= m as real / n as real <= 1.0
    ensures m as real / n as real == 1.0 <==> m == n
  {
    if m < n {
      ProperRatio(m, n);
    }
  }

  lemma OverlapRange(a: string, b: string)
    ensures 0.0 <= BigramOverlap(a, b) <= 1.0
    ensures |a| >= 2 && |b| >= 2 ==>
              (BigramOverlap(a, b) == 1.0 <==> Matches(a, b, |b| - 1) == |b| - 1 && |Bigrams(a)| <= |b| - 1)
  {
    if |a| >= 2 && |b| >= 2 {
      Fraction(Matches(a, b, |b| - 1), Max(|Bigrams(a)|, |b| - 1));
    }
  }

  lemma ScoreRange(input: string, candidate: string)
    ensures 0.0 <= Score(input, candidate) <= 1.0
  {
    var typed, cand := LowerAll(input), Normal(candidate);
    if typed <= cand && typed != cand {
      ProperRatio(|typed|, |cand|);
    } else if cand <= typed && typed != cand {
      ProperRatio(|cand|, |typed|);
    }
    OverlapRange(typed, cand);
  }

  /** Whatever the case, a proper prefix of a candidate scores in [0.8, 0.95). */
  lemma PrefixScore(input: string, candidate: string)
    requires LowerAll(input) <= Normal(candidate) && LowerAll(input) != Normal(candidate)
    ensures 0.8 <= Score(input, candidate) < 0.95
    ensures Eligible(input, candidate)
  {
    ProperRatio(|input|, |Normal(candidate)|);
  }

  /** What kind of match earns what: a candidate that starts with the input more
      than one the input starts with, one that contains the input 0.6, one the
      input contains 0.55, and all of them are suggested. */
  lemma KindsOfMatch(input: string, candidate: string)
    requires input != candidate && LowerAll(input) != Normal(candidate)
    ensures var typed, cand := LowerAll(input), Normal(candidate);
            && (typed <= cand ==> 0.8 <= Score(input, candidate) < 0.95)
            && (cand <= typed ==> 0.7 <= Score(input, candidate) < 0.95)
            && (!(typed <= cand) && !(cand <= typed) && Contains(cand, typed) ==> Score(input, candidate) == 0.6)
            && (!(cand <= typed) && !Contains(cand, typed) && Contains(typed, cand) ==> Score(input, candidate) == 0.55)
            && (Contains(cand, typed) || Contains(typed, cand) ==> Eligible(input, candidate))
  {
    var typed, cand := LowerAll(input), Normal(candidate);
    if typed <= cand {
      PrefixScore(input, candidate);
      PrefixIsContained(cand, typed);
    } else if cand <= typed {
      ProperRatio(|cand|, |typed|);
      PrefixIsContained(typed, cand);
    }
  }

  /** Among prefixes of one candidate the longer scores higher. */
  lemma LongerPrefixScoresHigher(shorter: string, longer: string, candidate: string)
    requires LowerAll(shorter) <= Normal(candidate) && LowerAll(longer) <= Normal(candidate)
    requires |shorter| < |longer| < |Normal(candidate)|
    ensures Score(shorter, candidate) < Score(longer, candidate)
  {
    RatioGrows(|shorter|, |longer|, |Normal(candidate)|);
  }

  lemma RatioGrows(m: nat, k: nat, n: nat)
    requires m < k && 0 < n
    ensures m as real / n as real < k as real / n as real
  {
  }

  /** Without any containment the score is the share of bigrams in common. */
  lemma OverlapEligibleIff(input: string, candidate: string)
    requires input != candidate
    requires var typed, cand := LowerAll(input), Normal(candidate);
             !Contains(cand, typed) && !Contains(typed, cand) && |typed| >= 2 && |cand| >= 2
    ensures var typed, cand := LowerAll(input), Normal(candidate);
            var common, total := Matches(typed, cand, |cand| - 1), Max(|Bigrams(typed)|, |cand| - 1);
            Eligible(input, candidate) <==> total <= 2 * common && common < total
  {
    var typed, cand := LowerAll(input), Normal(candidate);
    if typed <= cand { PrefixIsContained(cand, typed); }
    if cand <= typed { PrefixIsContained(typed, cand); }
    HalfShare(Matches(typed, cand, |cand| - 1), Max(|Bigrams(typed)|, |cand| - 1));
    Fraction(Matches(typed, cand, |cand| - 1), Max(|Bigrams(typed)|, |cand| - 1));
  }

  lemma HalfShare(m: nat, n: nat)
    requires 0 < n
    ensures m as real / n as real >= 0.5 <==> n <= 2 * m
  {
    var q := m as real / n as real;
    assert q * n as real == m as real;
    if q >= 0.5 {
      assert q * n as real >= 0.5 * n as real;
    } else {
      assert q * n as real < 0.5 * n as real;
    }
  }

  /** The two characters of `b` at `i` stand side by side in `a`. */
  predicate InCommon(a: string, b: string, i: nat) {
    i + 1 < |b| && Contains(a, b[i..i + 2])
  }

  function PlacesInCommon(a: string, b: string, n: nat): set<nat> {
    set i: nat | i < n && InCommon(a, b, i)
  }

  lemma OneMorePlace(a: string, b: string, n: nat)
    ensures |PlacesInCommon(a, b, n + 1)| == |PlacesInCommon(a, b, n)| + if InCommon(a, b, n) then 1 else 0
  {
    assert PlacesInCommon(a, b, n + 1) == PlacesInCommon(a, b, n) + if InCommon(a, b, n) then {n} else {};
  }

  /** The bigrams counted are the places of `b` with a pair in common with `a`. */
  lemma {:induction false} MatchesAreOccurrences(a: string, b: string, n: nat)
    requires n == 0 || n < |b|
    ensures Matches(a, b, n) == |PlacesInCommon(a, b, n)|
  {
    if n == 0 {
      assert PlacesInCommon(a, b, 0) == {};
    } else {
      MatchesAreOccurrences(a, b, n - 1);
      OneMorePlace(a, b, n - 1);
      BigramOccurs(a, b, n - 1);
    }
  }

  lemma BigramOccurs(a: string, b: string, i: nat)
    requires i + 1 < |b|
    ensures BigramAt(b, i) in Bigrams(a) <==> Contains(a, b[i..i + 2])
  {
    var pair := b[i..i + 2];
    if BigramAt(b, i) in Bigrams(a) {
      var k :| 0 <= k < |a| - 1 && BigramAt(a, k) == BigramAt(b, i);
      assert a[k..k + 2] == pair;
      assert OccursAt(a, pair, k);
    }
    if Contains(a, pair) {
      var k :| 0 <= k <= |a| && OccursAt(a, pair, k);
      assert a[k] == a[k..k + 2][0] == pair[0] && a[k + 1] == a[k..k + 2][1] == pair[1];
      assert BigramAt(a, k) == BigramAt(b, i);
    }
  }

  /** The two names are the same, up to case and leading dashes of the candidate. */
  predicate SameName(input: string, candidate: string) {
    input == candidate || LowerAll(input) == Normal(candidate)
  }

  /** Every bigram of the candidate occurs in the input, at least as many as
      the input has distinct ones, and neither text contains the other. */
  predicate FullOverlap(input: string, candidate: string) {
    var typed, cand := LowerAll(input), Normal(candidate);
    && !Contains(cand, typed) && !Contains(typed, cand)
    && |typed| >= 2 && |cand| >= 2
    && Matches(typed, cand, |cand| - 1) == |cand| - 1 && |Bigrams(typed)| <= |cand| - 1
  }

  lemma PrefixIsContained(hay: string, needle: string)
    requires needle <= hay
    ensures Contains(hay, needle)
  {
    assert OccursAt(hay, needle, 0);
  }

  /** The score is documented to stay below 1 unless the names match.  It
      reaches 1 in exactly one other case: a full bigram overlap. */
  lemma ScoreIsOneIff(input: string, candidate: string)
    ensures Score(input, candidate) == 1.0 <==> SameName(input, candidate) || FullOverlap(input, candidate)
  {
    var typed, cand := LowerAll(input), Normal(candidate);
    if !SameName(input, candidate) {
      if typed <= cand {
        ProperRatio(|typed|, |cand|);
        PrefixIsContained(cand, typed);
      } else if cand <= typed {
        ProperRatio(|cand|, |typed|);
        PrefixIsContained(typed, cand);
      } else {
        OverlapRange(typed, cand);
      }
    }
  }

  /** `aba` against `bab`: different names, full score, and so no suggestion. */
  lemma FullOverlapExample()
    ensures Score("aba", "bab") == 1.0 && !SameName("aba", "bab")
  {
    assert LowerAll("aba") == "aba" && Normal("bab") == "bab" by {
      assert TrimDashes("bab") == "bab";
    }
    var ab, ba := ('a', 'b'), ('b', 'a');
    assert BigramAt("aba", 0) == ab && BigramAt("aba", 1) == ba;
    assert Bigrams("aba") == {ab, ba};
    assert BigramAt("bab", 0) == ba && BigramAt("bab", 1) == ab;
    assert Matches("aba", "bab", 0) == 0;
    assert Matches("aba", "bab", 1) == 1;
    assert Matches("aba", "bab", 2) == 2;
    assert !Contains("aba", "bab") by {
      assert "aba"[0..3] == "aba";
    }
    assert !Contains("bab", "aba") by {
      assert "bab"[0..3] == "bab";
    }
    assert FullOverlap("aba", "bab");
    ScoreIsOneIff("aba", "bab");
  }

  // ---------- Ranking ----------

  predicate Eligible(input: string, candidate: string) {
    0.5 <= Score(input, candidate) < 1.0
  }

  /** A candidate by its position, with its score. */
  datatype Scored = Scored(score: real, index: nat)

  /** The order of a stable descending sort. */
  predicate Before(a: Scored, b: Scored) {
    a.score > b.score || (a.score == b.score && a.index < b.index)
  }

  ghost predicate Ordered(xs: seq<Scored>) {
    forall i, j :: 0 <= i < j < |xs| ==> Before(xs[i], xs[j])
  }

  function ScoredAt(input: string, candidates: seq<string>, i: nat): Scored
    requires i < |candidates|
  {
    Scored(Score(input, candidates[i]), i)
  }

  /** `xs` holds exactly the eligible ones of the first `n` candidates. */
  ghost predicate HoldsEligible(xs: seq<Scored>, input: string, candidates: seq<string>, n: nat)
    requires n <= |candidates|
  {
    forall x :: x in xs <==> x.index < n && Eligible(input, candidates[x.index]) && x == ScoredAt(input, candidates, x.index)
  }

  /** The full ranking: all eligible candidates, best first, ties in input order. */
  ghost predicate IsRanking(xs: seq<Scored>, input: string, candidates: seq<string>) {
    Ordered(xs) && HoldsEligible(xs, input, candidates, |candidates|)
  }

  function Min(x: nat, y: nat): nat { if x < y then x else y }

  function Names(xs: seq<Scored>, candidates: seq<string>): seq<string>
    requires forall i :: 0 <= i < |xs| ==> xs[i].index < |candidates|
  {
    seq(|xs|, i requires 0 <= i < |xs| => candidates[xs[i].index])
  }

  /** Stable insertion: behind everything that scores at least as high. */
  method Insert(sorted: seq<Scored>, x: Scored) returns (longer: seq<Scored>)
    requires Ordered(sorted)
    requires forall i :: 0 <= i < |sorted| ==> sorted[i].index < x.index
    ensures Ordered(longer)
    ensures forall y :: y in longer <==> y in sorted || y == x
  {
    var p := 0;
    while p < |sorted| && sorted[p].score >= x.score
      invariant 0 <= p <= |sorted|
      invariant forall i :: 0 <= i < p ==> Before(sorted[i], x)
    {
      p := p + 1;
    }
    forall i | p <= i < |sorted| ensures Before(x, sorted[i]) {
      assert i > p ==> Before(sorted[p], sorted[i]);
    }
    longer := sorted[..p] + [x] + sorted[p..];
    assert sorted == sorted[..p] + sorted[p..];
    assert forall y :: y in sorted <==> y in sorted[..p] || y in sorted[p..];
  }

  /** `sort_by` on the scored list, which arrives in input order. */
  method SortByScore(scored: seq<Scored>) returns (sorted: seq<Scored>)
    requires forall i, j :: 0 <= i < j < |scored| ==> scored[i].index < scored[j].index
    ensures Ordered(sorted)
    ensures forall x :: x in sorted <==> x in scored
  {
    sorted := [];
    for k := 0 to |scored|
      invariant Ordered(sorted)
      invariant forall x :: x in sorted <==> x in scored[..k]
    {
      assert scored[..k + 1] == scored[..k] + [scored[k]];
      assert forall i :: 0 <= i < |sorted| ==> sorted[i] in sorted;
      sorted := Insert(sorted, scored[k]);
    }
    assert scored[..|scored|] == scored;
  }

  method SuggestSimilarCommands(input: string, candidates: seq<string>, n: nat) returns (names: seq<string>)
    ensures exists ranking: seq<Scored> :: IsRanking(ranking, input, candidates)
              && (forall i :: 0 <= i < |ranking| ==> ranking[i].index < |candidates|)
              && names == Names(ranking[..Min(n, |ranking|)], candidates)
  {
    var scored: seq<Scored> := [];
    for k := 0 to |candidates|
      invariant forall i :: 0 <= i < |scored| ==> scored[i].index < k
      invariant forall i, j :: 0 <= i < j < |scored| ==> scored[i].index < scored[j].index
      invariant HoldsEligible(scored, input, candidates, k)
    {
      if Eligible(input, candidates[k]) {
        scored := scored + [ScoredAt(input, candidates, k)];
      }
    }
    var sorted := SortByScore(scored);
    forall i | 0 <= i < |sorted| ensures sorted[i].index < |candidates| {
      assert sorted[i] in sorted;
    }
    assert IsRanking(sorted, input, candidates);
    names := Names(sorted[..Min(n, |sorted|)], candidates);
  }

  /** Better scores come first, and equal ones in the order of the candidates. */
  lemma RankingOrder(ranking: seq<Scored>, input: string, candidates: seq<string>, i: nat, j: nat)
    requires IsRanking(ranking, input, candidates) && i < j < |ranking|
    ensures ranking[i].index < |candidates| && ranking[j].index < |candidates|
    ensures Score(input, candidates[ranking[i].index]) >= Score(input, candidates[ranking[j].index])
    ensures Score(input, candidates[ranking[i].index]) == Score(input, candidates[ranking[j].index]) ==>
              ranking[i].index < ranking[j].index
  {
    assert ranking[i] in ranking && ranking[j] in ranking;
    assert Before(ranking[i], ranking[j]);
  }

  /** There is only one ranking, so the suggestions are determined. */
  lemma {:induction false} OrderedUnique(xs: seq<Scored>, ys: seq<Scored>)
    requires Ordered(xs) && Ordered(ys)
    requires forall x :: x in xs <==> x in ys
    ensures xs == ys
  {
    assert ys != [] ==> ys[0] in xs;
    if xs != [] {
      assert xs[0] in ys;
      assert ys[0] in xs;
      assert xs[0] == ys[0];
      forall x ensures x in xs[1..] <==> x in ys[1..] {
        TailMembers(xs, x);
        TailMembers(ys, x);
      }
      OrderedUnique(xs[1..], ys[1..]);
      assert xs == [xs[0]] + xs[1..] && ys == [ys[0]] + ys[1..];
    }
  }

  lemma TailMembers(xs: seq<Scored>, x: Scored)
    requires Ordered(xs) && xs != []
    ensures x in xs[1..] <==> x in xs && x != xs[0]
  {
    if x in xs[1..] {
      var i :| 0 <= i < |xs| - 1 && xs[1..][i] == x;
      assert Before(xs[0], xs[i + 1]);
    }
  }

  lemma RankingUnique(xs: seq<Scored>, ys: seq<Scored>, input: string, candidates: seq<string>)
    requires IsRanking(xs, input, candidates) && IsRanking(ys, input, candidates)
    ensures xs == ys
  {
    OrderedUnique(xs, ys);
  }

  /** An eligible candidate is left out only if `n` others are ranked before it. */
  lemma NothingBetterIsOmitted(ranking: seq<Scored>, input: string, candidates: seq<string>, n: nat, i: nat)
    requires IsRanking(ranking, input, candidates)
    requires i < |candidates| && Eligible(input, candidates[i])
    requires ScoredAt(input, candidates, i) !in ranking[..Min(n, |ranking|)]
    ensures n < |ranking|
    ensures forall k :: 0 <= k < n ==> Before(ranking[k], ScoredAt(input, candidates, i))
  {
    var x := ScoredAt(input, candidates, i);
    assert x in ranking;
    var p :| 0 <= p < |ranking| && ranking[p] == x;
    var shown := ranking[..Min(n, |ranking|)];
    assert forall k :: 0 <= k < |shown| ==> shown[k] == ranking[k] && shown[k] in shown;
  }
}
