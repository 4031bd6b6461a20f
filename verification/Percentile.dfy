/** The order statistics of the startup benchmark, on samples already sorted.
    Samples are exact reals. */
module Percentile {
  import opened Sequences

  datatype Result = Ok(value: real) | Err

  /** The largest `usize` of a 64-bit platform. */
  const MAX_USIZE := 0xFFFF_FFFF_FFFF_FFFF

  predicate Sorted(samples: seq<real>) {
    forall i, j :: 0 <= i <= j < |samples| ==> samples[i] <= samples[j]
  }

  lemma {:induction false} CountAtLeast(samples: seq<real>, n: nat, p: real -> bool, from: nat, to: nat)
    requires from <= to <= n <= |samples|
    requires forall i :: from <= i < to ==> p(samples[i])
    ensures Count(samples, n, p) >= to - from
  {
    if n > 0 {
      if to == n {
        if from < to { CountAtLeast(samples, n - 1, p, from, to - 1); }
      } else {
        CountAtLeast(samples, n - 1, p, from, to);
      }
    }
  }

  lemma {:induction false} CountAtMost(samples: seq<real>, n: nat, p: real -> bool, k: nat)
    requires n <= |samples|
    requires forall i :: k <= i < |samples| ==> !p(samples[i])
    ensures Count(samples, n, p) <= k
  {
    if n > k {
      CountAtMost(samples, n - 1, p, k);
    }
  }

  function DivCeil(a: nat, b: nat): nat
    requires b > 0
  {
    a / b + if a % b > 0 then 1 else 0
  }

  lemma DivCeilBounds(a: nat, b: nat)
    requires b > 0
    ensures a <= DivCeil(a, b) * b < a + b
  {
    assert a == (a / b) * b + a % b;
  }

  function Rank(count: nat, numerator: nat, denominator: nat): nat
    requires denominator > 0
  {
    DivCeil(count * numerator, denominator)
  }

  lemma RankInRange(count: nat, numerator: nat, denominator: nat)
    requires count > 0 && 0 < numerator <= denominator
    ensures 1 <= Rank(count, numerator, denominator) <= count
  {
    var r := Rank(count, numerator, denominator);
    DivCeilBounds(count * numerator, denominator);
    MulMonotone(numerator, denominator, count);
    assert (count + 1) * denominator == denominator * count + denominator;
    Cancel(r, count + 1, denominator);
    Cancel(0, r, denominator);
  }

  lemma Cancel(a: nat, b: nat, c: nat)
    requires a * c < b * c
    ensures a < b
  {
    if b <= a {
      MulMonotone(b, a, c);
    }
  }

  method NearestRankPercentile(samples: seq<real>, numerator: nat, denominator: nat) returns (r: Result)
    ensures r.Ok? <==> samples != [] && 0 < numerator <= denominator && |samples| * numerator <= MAX_USIZE
    ensures r.Ok? ==>
              1 <= Rank(|samples|, numerator, denominator) <= |samples|
              && r.value == samples[Rank(|samples|, numerator, denominator) - 1]
  {
    if samples == [] {
      return Err;
    }
    if numerator == 0 || denominator == 0 || numerator > denominator {
      return Err;
    }
    if |samples| * numerator > MAX_USIZE {
      return Err;
    }
    var rank := DivCeil(|samples| * numerator, denominator);
    RankInRange(|samples|, numerator, denominator);
    return Ok(samples[rank - 1]);
  }

  /** At least the requested fraction of the samples is at or below the
      percentile, and strictly less than that fraction lies below it. */
  lemma PercentileMeaning(samples: seq<real>, numerator: nat, denominator: nat)
    requires samples != [] && Sorted(samples) && 0 < numerator <= denominator
    ensures 1 <= Rank(|samples|, numerator, denominator) <= |samples|
    ensures var v := samples[Rank(|samples|, numerator, denominator) - 1];
            && Count(samples, |samples|, x => x <= v) * denominator >= |samples| * numerator
            && Count(samples, |samples|, x => x < v) * denominator < |samples| * numerator
  {
    var n, rank := |samples|, Rank(|samples|, numerator, denominator);
    RankInRange(n, numerator, denominator);
    DivCeilBounds(n * numerator, denominator);
    var v := samples[rank - 1];
    CountAtLeast(samples, n, x => x <= v, 0, rank);
    CountAtMost(samples, n, x => x < v, rank - 1);
    MulMonotone(rank, Count(samples, n, x => x <= v), denominator);
    MulMonotone(Count(samples, n, x => x < v), rank - 1, denominator);
    assert (rank - 1) * denominator == rank * denominator - denominator;
  }

  lemma MulMonotone(a: nat, b: nat, c: nat)
    requires a <= b
    ensures a * c <= b * c
  {
  }

  method Median(samples: seq<real>) returns (r: Result)
    ensures r.Ok? <==> samples != []
    ensures r.Ok? ==> r.value == MedianOf(samples)
  {
    var count := |samples|;
    if count == 0 {
      return Err;
    }
    if count % 2 == 1 {
      return Ok(samples[count / 2]);
    }
    var lower := samples[count / 2 - 1];
    var upper := samples[count / 2];
    return Ok((lower + upper) / 2.0);
  }

  function MedianOf(samples: seq<real>): real
    requires samples != []
  {
    (samples[(|samples| - 1) / 2] + samples[|samples| / 2]) / 2.0
  }

  /** At least half of the samples lie at or below the median, and at least
      half at or above it. */
  lemma MedianMeaning(samples: seq<real>)
    requires samples != [] && Sorted(samples)
    ensures Count(samples, |samples|, x => x <= MedianOf(samples)) * 2 >= |samples|
    ensures Count(samples, |samples|, x => x >= MedianOf(samples)) * 2 >= |samples|
  {
    var n, m := |samples|, MedianOf(samples);
    assert samples[(n - 1) / 2] <= m <= samples[n / 2];
    CountAtLeast(samples, n, x => x <= m, 0, (n - 1) / 2 + 1);
    CountAtLeast(samples, n, x => x >= m, n / 2, n);
  }

  /** The samples seen from the other side. */
  function Mirrored(samples: seq<real>): (m: seq<real>)
    ensures |m| == |samples|
  {
    seq(|samples|, i requires 0 <= i < |samples| => -samples[|samples| - 1 - i])
  }

  /** The median favours neither side. */
  lemma MedianIsSymmetric(samples: seq<real>)
    requires samples != []
    ensures MedianOf(Mirrored(samples)) == -MedianOf(samples)
    ensures Sorted(samples) ==> Sorted(Mirrored(samples))
  {
    var n := |samples|;
    assert n - 1 - (n - 1) / 2 == n / 2;
  }
}
