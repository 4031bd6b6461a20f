/** Counting and searching in sequences. */
module Sequences {

  // ---------- Counting ----------

  /** How many of the first `n` members satisfy `p`. */
  function Count<T>(xs: seq<T>, n: nat, p: T -> bool): (c: nat)
    requires n <= |xs|
    ensures c <= n
  {
    if n == 0 then 0 else Count(xs, n - 1, p) + if p(xs[n - 1]) then 1 else 0
  }

  lemma {:induction false} CountUpdate<T>(xs: seq<T>, n: nat, j: nat, x: T, p: T -> bool)
    requires j < |xs| && n <= |xs|
    ensures Count(xs[j := x], n, p) ==
            Count(xs, n, p) + if j < n then (if p(x) then 1 else 0) - (if p(xs[j]) then 1 else 0) else 0
  {
    if n > 0 {
      CountUpdate(xs, n - 1, j, x, p);
    }
  }

  lemma {:induction false} CountWitness<T>(xs: seq<T>, n: nat, p: T -> bool)
    requires n <= |xs|
    ensures Count(xs, n, p) > 0 <==> exists j :: 0 <= j < n && p(xs[j])
  {
    if n > 0 {
      CountWitness(xs, n - 1, p);
    }
  }

  lemma {:induction false} CountAppend<T>(xs: seq<T>, x: T, n: nat, p: T -> bool)
    requires n <= |xs|
    ensures Count(xs + [x], n, p) == Count(xs, n, p)
  {
    if n > 0 {
      CountAppend(xs, x, n - 1, p);
    }
  }

  lemma {:induction false} CountNone<T>(xs: seq<T>, n: nat, p: T -> bool)
    requires n <= |xs| && forall k :: 0 <= k < n ==> !p(xs[k])
    ensures Count(xs, n, p) == 0
  {
    if n > 0 {
      CountNone(xs, n - 1, p);
    }
  }

  lemma {:induction false} CountConcat<T>(a: seq<T>, b: seq<T>, n: nat, p: T -> bool)
    requires n <= |b|
    ensures Count(a + b, |a| + n, p) == Count(a, |a|, p) + Count(b, n, p)
  {
    if n == 0 {
      CountPrefix(a, b, |a|, p);
    } else {
      CountConcat(a, b, n - 1, p);
    }
  }

  lemma {:induction false} CountPrefix<T>(a: seq<T>, b: seq<T>, n: nat, p: T -> bool)
    requires n <= |a|
    ensures Count(a + b, n, p) == Count(a, n, p)
  {
    if n > 0 {
      CountPrefix(a, b, n - 1, p);
    }
  }

  // ---------- Searching ----------

  /** The first position from `i` on whose member satisfies `p`, or the length. */
  function First<T>(xs: seq<T>, p: T -> bool, i: nat): (n: nat)
    requires i <= |xs|
    ensures i <= n <= |xs|
    decreases |xs| - i
  {
    if i == |xs| || p(xs[i]) then i else First(xs, p, i + 1)
  }

  lemma {:induction false} FirstMeaning<T>(xs: seq<T>, p: T -> bool, i: nat)
    requires i <= |xs|
    ensures var n := First(xs, p, i);
            && (n < |xs| ==> p(xs[n]))
            && forall k :: i <= k < n ==> !p(xs[k])
    decreases |xs| - i
  {
    if i < |xs| && !p(xs[i]) {
      FirstMeaning(xs, p, i + 1);
    }
  }

  lemma {:induction false} FirstIs<T>(xs: seq<T>, p: T -> bool, i: nat, n: nat)
    requires i <= n <= |xs| && (n < |xs| ==> p(xs[n]))
    requires forall k :: i <= k < n ==> !p(xs[k])
    ensures First(xs, p, i) == n
    decreases n - i
  {
    if i < n {
      FirstIs(xs, p, i + 1, n);
    }
  }
}
