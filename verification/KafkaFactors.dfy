/**
 Rounding a consumer count up to a divisor of the partition count
 (`FindFactors` and `getNextFactorThatBalancesConsumersToTopicPartitions`).
 */
module KafkaFactors {
  import opened Common

  predicate IsFactor(d: int, n: int) {
    1 <= d <= n && n % d == 0
  }

  /** `int64(math.Sqrt(float64(n)))`, taken as the exact integer square root. */
  function IntSqrt(n: nat): (r: nat)
    ensures r * r <= n < (r + 1) * (r + 1)
  {
    if n == 0 then 0 else
      var r := IntSqrt(n - 1);
      if (r + 1) * (r + 1) <= n then r + 1 else r
  }

  ghost predicate Sorted(s: seq<int>) {
    forall i, j :: 0 <= i < j < |s| ==> s[i] <= s[j]
  }

  ghost predicate StrictlyIncreasing(s: seq<int>) {
    forall i, j :: 0 <= i < j < |s| ==> s[i] < s[j]
  }

  /** `sort.Slice` with `<`: an ordered rearrangement. */
  function Sort(s: seq<int>): (r: seq<int>)
    ensures Sorted(r) && multiset(r) == multiset(s)
  {
    if s == [] then [] else
      assert s == [s[0]] + s[1..];
      Insert(s[0], Sort(s[1..]))
  }

  function Insert(x: int, s: seq<int>): (r: seq<int>)
    requires Sorted(s)
    ensures Sorted(r) && multiset(r) == multiset(s) + multiset{x}
  {
    if s == [] then [x]
    else if x <= s[0] then [x] + s
    else
      var rest := Insert(x, s[1..]);
      assert s == [s[0]] + s[1..];
      BelowAll(s[0], x, s[1..], rest);
      [s[0]] + rest
  }

  lemma BelowAll(low: int, x: int, s: seq<int>, r: seq<int>)
    requires low <= x && multiset(r) == multiset(s) + multiset{x}
    requires forall i :: 0 <= i < |s| ==> low <= s[i]
    ensures forall i :: 0 <= i < |r| ==> low <= r[i]
  {
    forall i | 0 <= i < |r| ensures low <= r[i] {
      assert r[i] in multiset(r);
      assert r[i] == x || r[i] in s;
    }
  }

  lemma DistinctPermutation(s: seq<int>, r: seq<int>)
    requires Distinct(s) && multiset(s) == multiset(r)
    ensures Distinct(r)
  {
    forall i, j | 0 <= i < j < |r| ensures r[i] != r[j] {
      if r[i] == r[j] {
        TwiceInMultiset(r, i, j);
        OnceInMultiset(s, r[i]);
      }
    }
  }

  lemma TwiceInMultiset(r: seq<int>, i: nat, j: nat)
    requires i < j < |r| && r[i] == r[j]
    ensures multiset(r)[r[i]] >= 2
  {
    assert r == r[..i] + [r[i]] + r[i + 1..j] + [r[j]] + r[j + 1..];
  }

  lemma {:induction false} OnceInMultiset(s: seq<int>, x: int)
    requires Distinct(s)
    ensures multiset(s)[x] <= 1
  {
    if s != [] {
      assert s == [s[0]] + s[1..];
      OnceInMultiset(s[1..], x);
    }
  }

  lemma ScaleLe(a: int, b: int, c: nat)
    requires a <= b
    ensures a * c <= b * c
  {
  }

  lemma QuotientOfProduct(d: int, e: int)
    requires 1 <= e
    ensures (d * e) % e == 0 && (d * e) / e == d
  {
    var q, r := (d * e) / e, (d * e) % e;
    assert (d - q) * e == r;
    assert d - q >= 1 ==> (d - q) * e >= e;
    assert d - q <= -1 ==> (d - q) * e <= -e;
  }

  /** Factors come in pairs d and n/d. */
  lemma FactorPair(d: int, n: int)
    requires IsFactor(d, n)
    ensures d * (n / d) == n && IsFactor(n / d, n) && n / (n / d) == d
  {
    var e := n / d;
    assert n == d * e;
    assert e < 1 ==> d * e <= 0;
    ScaleLe(1, d, if e < 1 then 0 else e);
    QuotientOfProduct(d, e);
  }

  /** One of the two factors of a pair is at most the square root. */
  lemma SmallerOfPair(d: int, n: int, r: nat)
    requires IsFactor(d, n) && n < (r + 1) * (r + 1)
    ensures d <= r || n / d <= r
  {
    FactorPair(d, n);
    ProductAbove(d, n / d, r + 1);
  }

  lemma ProductAbove(d: int, e: int, m: nat)
    ensures d >= m && e >= m ==> d * e >= m * m
  {
    if d >= m && e >= m {
      ScaleLe(m, d, e);
      ScaleLe(m, e, m);
    }
  }

  lemma SquareBound(i: int, r: nat, n: int)
    requires 1 <= i <= r && r * r <= n
    ensures i <= n && i <= n / i
  {
    ProductAbove(r, r, i);
    var q := n / i;
    assert n < i * (q + 1);
    assert q + 1 <= i ==> (q + 1) * i <= i * i by {
      if q + 1 <= i { ScaleLe(q + 1, i, i); }
    }
    ScaleLe(1, i, i);
  }

  /** d is a factor met as i' or as n/i' for some i' below i. */
  ghost predicate Reached(d: int, n: int, i: int) {
    IsFactor(d, n) && (d < i || n / d < i)
  }

  lemma ReachedStep(n: int, i: int, r: nat)
    requires 1 <= i <= r && r * r <= n
    ensures n % i == 0 ==> !Reached(i, n, i) && !Reached(n / i, n, i)
    ensures forall d :: Reached(d, n, i + 1) <==>
                        Reached(d, n, i) || (n % i == 0 && (d == i || d == n / i))
  {
    SquareBound(i, r, n);
    if n % i == 0 {
      FactorPair(i, n);
    }
    forall d | IsFactor(d, n) ensures (d == i || n / d == i) <==> (n % i == 0 && (d == i || d == n / i)) {
      FactorPair(d, n);
    }
  }

  lemma ReachedAll(n: int, r: nat)
    requires n < (r + 1) * (r + 1)
    ensures forall d :: Reached(d, n, r + 1) <==> IsFactor(d, n)
  {
    forall d | IsFactor(d, n) ensures Reached(d, n, r + 1) {
      SmallerOfPair(d, n, r);
    }
  }

  lemma NoneReached(n: int)
    ensures forall d :: !Reached(d, n, 1)
  {
    forall d | IsFactor(d, n) ensures !Reached(d, n, 1) {
      FactorPair(d, n);
    }
  }

  /** The sqrt-bounded search finds exactly the divisors, each once, in order. */
  method FindFactors(n: int) returns (factors: seq<int>)
    ensures StrictlyIncreasing(factors)
    ensures forall d :: d in factors <==> IsFactor(d, n)
  {
    if n < 1 {
      return [];
    }
    factors := [];
    var sqrtN := IntSqrt(n);
    NoneReached(n);
    var i := 1;
    while i <= sqrtN
      invariant 1 <= i <= sqrtN + 1
      invariant Distinct(factors)
      invariant forall d :: d in factors <==> Reached(d, n, i)
    {
      ReachedStep(n, i, sqrtN);
      if n % i == 0 {
        factors := factors + [i];
        if i != n / i {
          factors := factors + [n / i];
        }
      }
      i := i + 1;
    }
    ReachedAll(n, sqrtN);
    ghost var found := factors;
    factors := Sort(factors);
    DistinctPermutation(found, factors);
    assert forall d :: d in factors <==> d in multiset(factors);
    assert forall d :: d in found <==> d in multiset(found);
  }

  /** The reference search: the least divisor from d up whose capacity covers the lag, else n. */
  function NextFactorFrom(d: int, lag: int, n: int, threshold: int): int
    requires 1 <= d
    decreases n - d
  {
    if d >= n then n
    else if n % d == 0 && d * threshold >= lag then d
    else NextFactorFrom(d + 1, lag, n, threshold)
  }

  function NextFactor(lag: int, n: int, threshold: int): int {
    NextFactorFrom(1, lag, n, threshold)
  }

  /** f is the least divisor of n whose capacity f*threshold covers the lag. */
  ghost predicate LeastCovering(f: int, lag: int, n: int, threshold: int) {
    && IsFactor(f, n) && f * threshold >= lag
    && forall g :: IsFactor(g, n) && g * threshold >= lag ==> f <= g
  }

  ghost predicate NoneCovers(lag: int, n: int, threshold: int) {
    forall g :: IsFactor(g, n) ==> g * threshold < lag
  }

  lemma {:induction false} NextFactorFromLeast(d: int, lag: int, n: int, threshold: int)
    requires 1 <= d && 1 <= n
    requires forall g :: IsFactor(g, n) && g < d ==> g * threshold < lag
    ensures LeastCovering(NextFactorFrom(d, lag, n, threshold), lag, n, threshold)
         || (NextFactorFrom(d, lag, n, threshold) == n && NoneCovers(lag, n, threshold))
    decreases n - d
  {
    assert IsFactor(n, n);
    if d < n && !(n % d == 0 && d * threshold >= lag) {
      NextFactorFromLeast(d + 1, lag, n, threshold);
    }
  }

  /** The chosen consumer count is the least covering divisor, or n when no divisor covers the lag. */
  lemma NextFactorLeast(lag: int, n: int, threshold: int)
    requires 1 <= n
    ensures IsFactor(NextFactor(lag, n, threshold), n)
    ensures if NoneCovers(lag, n, threshold) then NextFactor(lag, n, threshold) == n
            else LeastCovering(NextFactor(lag, n, threshold), lag, n, threshold)
  {
    NextFactorFromLeast(1, lag, n, threshold);
    assert IsFactor(n, n);
  }

  /** More lag never asks for fewer consumers. */
  lemma NextFactorMonotone(lag: int, more: int, n: int, threshold: int)
    requires lag <= more
    ensures NextFactor(lag, n, threshold) <= NextFactor(more, n, threshold)
  {
    if 1 <= n {
      NextFactorLeast(lag, n, threshold);
      NextFactorLeast(more, n, threshold);
      var g := NextFactor(more, n, threshold);
      assert IsFactor(g, n);
    }
  }

  /** The first covering entry of the ordered factor list is the reference answer. */
  lemma FirstCovering(factors: seq<int>, i: nat, lag: int, n: int, threshold: int)
    requires StrictlyIncreasing(factors) && forall d :: d in factors <==> IsFactor(d, n)
    requires i < |factors| && factors[i] * threshold >= lag
    requires forall j :: 0 <= j < i ==> factors[j] * threshold < lag
    ensures factors[i] == NextFactor(lag, n, threshold)
  {
    assert IsFactor(factors[i], n);
    NextFactorLeast(lag, n, threshold);
    var f := NextFactor(lag, n, threshold);
    var k :| 0 <= k < |factors| && factors[k] == f;
  }

  lemma NothingCovering(factors: seq<int>, lag: int, n: int, threshold: int)
    requires forall d :: d in factors <==> IsFactor(d, n)
    requires forall j :: 0 <= j < |factors| ==> factors[j] * threshold < lag
    ensures n == NextFactor(lag, n, threshold)
  {
    if 1 <= n {
      NextFactorLeast(lag, n, threshold);
      var f := NextFactor(lag, n, threshold);
      assert f in factors;
    }
  }

  /** The search over the sorted factor list agrees with the reference search. */
  method GetNextFactor(lag: int, n: int, threshold: int) returns (f: int)
    ensures f == NextFactor(lag, n, threshold)
  {
    var factors := FindFactors(n);
    var i := 0;
    while i < |factors|
      invariant 0 <= i <= |factors|
      invariant forall j :: 0 <= j < i ==> factors[j] * threshold < lag
    {
      if factors[i] * threshold >= lag {
        FirstCovering(factors, i, lag, n, threshold);
        return factors[i];
      }
      i := i + 1;
    }
    NothingCovering(factors, lag, n, threshold);
    return n;
  }
}
